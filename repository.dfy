/**
 * The metadata store: the `containers` table behind a transactional
 * repository. Every mutator opens a transaction, works on the table, and on
 * any failure (or a panic, which it re-raises) rolls back, modelled here as
 * restoring the snapshot taken at `BEGIN`.
 */
module Repository {
  import opened Outcomes
  import opened Text
  import opened ContainerModel
  import opened Listing

  /** Where an injected failure strikes inside one transaction. */
  datatype TxFault = NoFault | BeginFails | LookupFails | WriteFails | CommitFails | Panics

  /** Which statement of a read-only listing query fails. */
  datatype QueryFault = QueryOk | CountFails | FindFails

  const BeginError: string := "failed to begin transaction"
  const CommitError: string := "failed to commit transaction"
  const CreateError: string := "failed to create container"
  const NotFoundError: string := "container not found"
  const UpdateError: string := "failed to update container"
  const DeleteError: string := "failed to delete container"
  const AllFailedError: string := "no containers created, all failed"

  // ------------------------------------------------------------ the table

  /** No two rows share a runtime id or a name (the two unique constraints). */
  ghost predicate UniqueColumns(rows: map<nat, Container>)
  {
    forall a, b :: a in rows && b in rows && a != b ==>
      rows[a].containerId != rows[b].containerId && rows[a].containerName != rows[b].containerName
  }

  /** Inserting `n` would violate a unique constraint. */
  predicate Conflicts(rows: map<nat, Container>, n: NewContainer)
  {
    exists k :: k in rows && (rows[k].containerId == n.containerId || rows[k].containerName == n.containerName)
  }

  /** Rewriting row `id` as `c` would violate a unique constraint. */
  predicate ConflictsElsewhere(rows: map<nat, Container>, id: nat, c: Container)
  {
    exists k :: k in rows && k != id && (rows[k].containerId == c.containerId || rows[k].containerName == c.containerName)
  }

  /** The rows with keys below `n`, in key order (the order of insertion). */
  function RowsBelow(rows: map<nat, Container>, n: nat): seq<Container>
  {
    if n == 0 then [] else RowsBelow(rows, n - 1) + (if n - 1 in rows then [rows[n - 1]] else [])
  }

  ghost function KeysBelow(rows: map<nat, Container>, n: nat): set<nat>
  {
    set k | k in rows && k < n
  }

  /** Listing the rows below `n` yields one entry per key below `n`. */
  lemma {:induction false} RowsBelowCount(rows: map<nat, Container>, n: nat)
    ensures |RowsBelow(rows, n)| == |KeysBelow(rows, n)|
  {
    if n == 0 {
      assert KeysBelow(rows, n) == {};
    } else {
      RowsBelowCount(rows, n - 1);
      if n - 1 in rows {
        assert KeysBelow(rows, n) == KeysBelow(rows, n - 1) + {n - 1};
      } else {
        assert KeysBelow(rows, n) == KeysBelow(rows, n - 1);
      }
    }
  }

  /** A row is listed exactly when it is stored under a key below `n`. */
  lemma {:induction false} RowsBelowMembers(rows: map<nat, Container>, n: nat, c: Container)
    ensures c in RowsBelow(rows, n) <==> exists k :: k in rows && k < n && rows[k] == c
  {
    if n > 0 {
      RowsBelowMembers(rows, n - 1, c);
    }
  }

  /** Rows stored under their own keys are listed in strictly ascending key order, all below `n`. */
  lemma {:induction false} RowsBelowAscending(rows: map<nat, Container>, n: nat)
    requires forall k :: k in rows ==> rows[k].id == k
    ensures forall i :: 0 <= i < |RowsBelow(rows, n)| ==> RowsBelow(rows, n)[i].id < n
    ensures forall i, j :: 0 <= i < j < |RowsBelow(rows, n)| ==> RowsBelow(rows, n)[i].id < RowsBelow(rows, n)[j].id
  {
    if n > 0 {
      RowsBelowAscending(rows, n - 1);
    }
  }

  /** Listing the rows below the counter yields each stored row once, in ascending key order, and nothing else. */
  lemma RowsBelowIsTable(rows: map<nat, Container>, nextId: nat)
    requires forall k :: k in rows ==> k < nextId && rows[k].id == k
    ensures |RowsBelow(rows, nextId)| == |rows|
    ensures forall k :: k in rows ==> rows[k] in RowsBelow(rows, nextId)
    ensures forall c :: c in RowsBelow(rows, nextId) ==> c.id in rows && rows[c.id] == c
    ensures forall i, j :: 0 <= i < j < |RowsBelow(rows, nextId)| ==> RowsBelow(rows, nextId)[i].id < RowsBelow(rows, nextId)[j].id
  {
    RowsBelowCount(rows, nextId);
    assert KeysBelow(rows, nextId) == rows.Keys;
    RowsBelowAscending(rows, nextId);
    forall k | k in rows
      ensures rows[k] in RowsBelow(rows, nextId)
    {
      RowsBelowMembers(rows, nextId, rows[k]);
    }
    forall c | c in RowsBelow(rows, nextId)
      ensures c.id in rows && rows[c.id] == c
    {
      RowsBelowMembers(rows, nextId, c);
    }
  }

  /** The id/name pair of each row, in order. */
  function NamesOf(cs: seq<Container>): (names: seq<ContainerName>)
    ensures |names| == |cs|
    ensures forall i :: 0 <= i < |cs| ==> names[i] == ContainerName(cs[i].id, cs[i].containerName)
  {
    seq(|cs|, i requires 0 <= i < |cs| => ContainerName(cs[i].id, cs[i].containerName))
  }

  /**
   * The id/name pairs of the whole table name every stored row once, in
   * ascending key order, each with that row's name.
   */
  lemma NamesOfTable(rows: map<nat, Container>, nextId: nat)
    requires forall k :: k in rows ==> k < nextId && rows[k].id == k
    ensures var names := NamesOf(RowsBelow(rows, nextId));
      |names| == |rows| &&
      (forall i :: 0 <= i < |names| ==> names[i].id in rows && rows[names[i].id].containerName == names[i].containerName) &&
      (forall k :: k in rows ==> ContainerName(k, rows[k].containerName) in names) &&
      (forall i, j :: 0 <= i < j < |names| ==> names[i].id < names[j].id)
  {
    var listed := RowsBelow(rows, nextId);
    var names := NamesOf(listed);
    RowsBelowIsTable(rows, nextId);
    forall k | k in rows
      ensures ContainerName(k, rows[k].containerName) in names
    {
      var j :| 0 <= j < |listed| && listed[j] == rows[k];
      assert names[j] == ContainerName(k, rows[k].containerName);
    }
  }

  /** The keys of the rows whose status is `running`. */
  function RunningKeys(rows: map<nat, Container>): set<nat>
  {
    set k | k in rows && rows[k].status == StatusRunning
  }

  // ------------------------------------------------------------ patching

  /**
   * The patches the model lets the store apply: every key is the column name
   * or the Go field name of one of the four text columns, no column is named
   * twice, and every value is text (JSON numbers, booleans and null do not
   * fit the NOT NULL text columns). Any other patch makes the statement fail.
   * gorm also resolves the key and timestamp columns, which this set leaves out.
   */
  predicate PatchApplicable(p: PatchMap)
  {
    (forall k :: k in p ==> k in UpdatableKeys && p[k].Str?) &&
    !("container_id" in p && "ContainerID" in p) &&
    !("container_name" in p && "ContainerName" in p) &&
    !("image_name" in p && "ImageName" in p) &&
    !("status" in p && "Status" in p)
  }

  const UpdatableKeys: set<string> :=
    {"container_id", "ContainerID", "container_name", "ContainerName",
     "image_name", "ImageName", "status", "Status"}

  /** The value the patch gives a column, under either spelling of its key, or the current one. */
  function Patched(p: PatchMap, column: string, field: string, current: string): string
  {
    if column in p && p[column].Str? then p[column].s
    else if field in p && p[field].Str? then p[field].s
    else current
  }

  /** `UPDATE ... SET` with the patch, plus `updated_at = now`; None when the statement fails. */
  function ApplyPatch(c: Container, p: PatchMap, now: int): Option<Container>
  {
    if !PatchApplicable(p) then None
    else Some(c.(
      containerId := Patched(p, "container_id", "ContainerID", c.containerId),
      containerName := Patched(p, "container_name", "ContainerName", c.containerName),
      imageName := Patched(p, "image_name", "ImageName", c.imageName),
      status := Patched(p, "status", "Status", c.status),
      updatedAt := now))
  }

  /**
   * A successful update keeps the key and the creation time, refreshes
   * `updated_at`, sets each named column to the patch's text and leaves every
   * column the patch does not name as it was.
   */
  lemma PatchChangesOnlyNamedColumns(c: Container, p: PatchMap, now: int)
    requires ApplyPatch(c, p, now).Some?
    ensures var u := ApplyPatch(c, p, now).value;
      u.id == c.id && u.createdAt == c.createdAt && u.updatedAt == now &&
      ("container_id" in p ==> u.containerId == p["container_id"].s) &&
      ("ContainerID" in p ==> u.containerId == p["ContainerID"].s) &&
      ("container_id" !in p && "ContainerID" !in p ==> u.containerId == c.containerId) &&
      ("container_name" in p ==> u.containerName == p["container_name"].s) &&
      ("ContainerName" in p ==> u.containerName == p["ContainerName"].s) &&
      ("container_name" !in p && "ContainerName" !in p ==> u.containerName == c.containerName) &&
      ("image_name" in p ==> u.imageName == p["image_name"].s) &&
      ("ImageName" in p ==> u.imageName == p["ImageName"].s) &&
      ("image_name" !in p && "ImageName" !in p ==> u.imageName == c.imageName) &&
      ("status" in p ==> u.status == p["status"].s) &&
      ("Status" in p ==> u.status == p["Status"].s) &&
      ("status" !in p && "Status" !in p ==> u.status == c.status)
  {
  }

  // ------------------------------------------------------------ verdicts

  /** How `CreateContainer` ends, given the table at `BEGIN` and the injected fault. */
  function CreateVerdict(rows: map<nat, Container>, nextId: nat, n: NewContainer, fault: TxFault): Result<nat>
  {
    if fault == BeginFails then Err(BeginError)
    else if fault == WriteFails || Conflicts(rows, n) then Err(CreateError)
    else if fault == Panics then Panic
    else if fault == CommitFails then Err(CommitError)
    else Ok(nextId)
  }

  /** How `UpdateContainer` ends. */
  function UpdateVerdict(rows: map<nat, Container>, id: nat, p: PatchMap, now: int, fault: TxFault): Result<Container>
  {
    if fault == BeginFails then Err(BeginError)
    else if fault == LookupFails || id !in rows then Err(NotFoundError)
    else match ApplyPatch(rows[id], p, now)
      case None => Err(UpdateError)
      case Some(u) =>
        if fault == WriteFails || ConflictsElsewhere(rows, id, u) then Err(UpdateError)
        else if fault == Panics then Panic
        else if fault == CommitFails then Err(CommitError)
        else Ok(u)
  }

  /** How `DeleteContainer` ends. */
  function DeleteVerdict(rows: map<nat, Container>, id: nat, fault: TxFault): Result<()>
  {
    if fault == BeginFails then Err(BeginError)
    else if fault == LookupFails || id !in rows then Err(NotFoundError)
    else if fault == WriteFails then Err(DeleteError)
    else if fault == Panics then Panic
    else if fault == CommitFails then Err(CommitError)
    else Ok(())
  }

  // ------------------------------------------------------------ batches

  /** The elements of `s` whose mask bit is `keep`, in order. */
  function Select<T>(s: seq<T>, mask: seq<bool>, keep: bool): seq<T>
    requires |mask| == |s|
  {
    if s == [] then []
    else Select(s[..|s| - 1], mask[..|s| - 1], keep) + (if mask[|s| - 1] == keep then [s[|s| - 1]] else [])
  }

  /** A mask splits a sequence into two parts that together hold every element exactly once. */
  lemma {:induction false} SelectPartition<T>(s: seq<T>, mask: seq<bool>)
    requires |mask| == |s|
    ensures |Select(s, mask, true)| + |Select(s, mask, false)| == |s|
    ensures multiset(Select(s, mask, true)) + multiset(Select(s, mask, false)) == multiset(s)
  {
    if s != [] {
      var n := |s| - 1;
      SelectPartition(s[..n], mask[..n]);
      LastSplit(s);
    }
  }

  /** A non-empty sequence is its prefix followed by its last element. */
  lemma LastSplit<T>(s: seq<T>)
    requires s != []
    ensures multiset(s) == multiset(s[..|s| - 1]) + multiset{s[|s| - 1]}
  {
    assert s == s[..|s| - 1] + [s[|s| - 1]];
  }

  /** The part a mask keeps holds as many elements as the mask has matching bits. */
  lemma {:induction false} SelectNoneKept<T>(s: seq<T>, mask: seq<bool>, keep: bool)
    requires |mask| == |s|
    ensures Select(s, mask, keep) == [] <==> keep !in mask
  {
    if s != [] {
      var n := |s| - 1;
      SelectNoneKept(s[..n], mask[..n], keep);
      assert mask == mask[..n] + [mask[n]];
    }
  }

  /** The caller-supplied columns of each row of a sequence. */
  function FieldsOf(cs: seq<Container>): (r: seq<NewContainer>)
    ensures |r| == |cs|
  {
    if cs == [] then [] else FieldsOf(cs[..|cs| - 1]) + [Fields(cs[|cs| - 1])]
  }

  /** The table after storing each row of `cs` under its own key. */
  function AddRows(rows: map<nat, Container>, cs: seq<Container>): map<nat, Container>
  {
    if cs == [] then rows else AddRows(rows, cs[..|cs| - 1])[cs[|cs| - 1].id := cs[|cs| - 1]]
  }

  /** Rows created by one batch: consecutive fresh keys from `first`, all stamped `now`. */
  ghost predicate BatchRows(cs: seq<Container>, first: nat, now: int)
  {
    forall j :: 0 <= j < |cs| ==> cs[j].id == first + j && cs[j].createdAt == now && cs[j].updatedAt == now
  }

  /** The table invariant: positive keys below the counter, each the id of its row; unique columns. */
  ghost predicate TableInvariant(rows: map<nat, Container>, nextId: nat)
  {
    nextId >= 1 &&
    (forall k :: k in rows ==> 1 <= k < nextId && rows[k].id == k) &&
    UniqueColumns(rows)
  }

  /** Inserting a non-conflicting row under the counter keeps the invariant. */
  lemma InsertKeepsInvariant(rows: map<nat, Container>, nextId: nat, n: NewContainer, now: int)
    requires TableInvariant(rows, nextId) && !Conflicts(rows, n)
    ensures nextId !in rows
    ensures TableInvariant(rows[nextId := Inserted(n, nextId, now)], nextId + 1)
  {
  }

  /**
   * A batch of fresh consecutive keys leaves the earlier rows as they were and
   * stores the j-th created row under key `nextId + j`, and nothing else.
   */
  lemma {:induction false} AddRowsContents(rows: map<nat, Container>, nextId: nat, cs: seq<Container>, now: int)
    requires forall k :: k in rows ==> k < nextId
    requires BatchRows(cs, nextId, now)
    ensures forall k :: k in AddRows(rows, cs) <==> k in rows || nextId <= k < nextId + |cs|
    ensures forall k :: k in rows ==> AddRows(rows, cs)[k] == rows[k]
    ensures forall j :: 0 <= j < |cs| ==> AddRows(rows, cs)[nextId + j] == cs[j]
  {
    if cs != [] {
      var n := |cs| - 1;
      assert BatchRows(cs[..n], nextId, now);
      AddRowsContents(rows, nextId, cs[..n], now);
    }
  }

  /** Each element a mask keeps is an element of the sequence. */
  lemma {:induction false} SelectSubset<T>(s: seq<T>, mask: seq<bool>, keep: bool)
    requires |mask| == |s|
    ensures forall x :: x in Select(s, mask, keep) ==> x in s
  {
    if s != [] {
      var n := |s| - 1;
      SelectSubset(s[..n], mask[..n], keep);
    }
  }

  /** The j-th entry of `FieldsOf(cs)` is the caller-supplied part of `cs[j]`. */
  lemma {:induction false} FieldsOfIndex(cs: seq<Container>)
    ensures forall j :: 0 <= j < |cs| ==> FieldsOf(cs)[j] == Fields(cs[j])
  {
    if cs != [] {
      FieldsOfIndex(cs[..|cs| - 1]);
    }
  }

  /** A batch of fresh consecutive keys adds one row per created container. */
  lemma {:induction false} AddRowsSize(rows: map<nat, Container>, nextId: nat, cs: seq<Container>, now: int)
    requires forall k :: k in rows ==> k < nextId
    requires BatchRows(cs, nextId, now)
    ensures |AddRows(rows, cs)| == |rows| + |cs|
    ensures forall k :: k in AddRows(rows, cs) ==> k < nextId + |cs|
  {
    if cs != [] {
      var n := |cs| - 1;
      assert BatchRows(cs[..n], nextId, now);
      AddRowsSize(rows, nextId, cs[..n], now);
      assert cs[n].id !in AddRows(rows, cs[..n]);
    }
  }

  lemma SelectSnoc<T>(s: seq<T>, mask: seq<bool>, x: T, b: bool, keep: bool)
    requires |mask| == |s|
    ensures Select(s + [x], mask + [b], keep) == Select(s, mask, keep) + (if b == keep then [x] else [])
  {
    assert (s + [x])[..|s|] == s && (mask + [b])[..|s|] == mask;
  }

  lemma FieldsOfSnoc(cs: seq<Container>, c: Container)
    ensures FieldsOf(cs + [c]) == FieldsOf(cs) + [Fields(c)]
  {
    assert (cs + [c])[..|cs|] == cs;
  }

  lemma AddRowsSnoc(rows: map<nat, Container>, cs: seq<Container>, c: Container)
    ensures AddRows(rows, cs + [c]) == AddRows(rows, cs)[c.id := c]
  {
    assert (cs + [c])[..|cs|] == cs;
  }

  /**
   * What the insert loop of a batch has done after the items `items`: the
   * mask marks the inserts that went in, refused inserts are marked failed,
   * and the created rows sit under consecutive keys from `next0`.
   */
  ghost predicate BatchSoFar(items: seq<NewContainer>, mask: seq<bool>, failingInserts: set<nat>,
                             created: seq<Container>, failed: seq<NewContainer>,
                             rows0: map<nat, Container>, next0: nat, now: int,
                             rows: map<nat, Container>, nextId: nat)
  {
    |mask| == |items| &&
    (forall j :: 0 <= j < |items| && j in failingInserts ==> !mask[j]) &&
    FieldsOf(created) == Select(items, mask, true) &&
    failed == Select(items, mask, false) &&
    BatchRows(created, next0, now) && nextId == next0 + |created| &&
    rows == AddRows(rows0, created)
  }

  /** One more insert, successful or not, extends what the loop has done. */
  lemma BatchStep(items: seq<NewContainer>, mask: seq<bool>, failingInserts: set<nat>,
                  created: seq<Container>, failed: seq<NewContainer>,
                  rows0: map<nat, Container>, next0: nat, now: int,
                  rows: map<nat, Container>, nextId: nat,
                  item: NewContainer, ok: bool, c: Container)
    requires BatchSoFar(items, mask, failingInserts, created, failed, rows0, next0, now, rows, nextId)
    requires ok ==> |items| !in failingInserts && c == Inserted(item, nextId, now)
    ensures ok ==> BatchSoFar(items + [item], mask + [ok], failingInserts, created + [c], failed,
                              rows0, next0, now, rows[nextId := c], nextId + 1)
    ensures !ok ==> BatchSoFar(items + [item], mask + [ok], failingInserts, created, failed + [item],
                               rows0, next0, now, rows, nextId)
  {
    SelectSnoc(items, mask, item, ok, true);
    SelectSnoc(items, mask, item, ok, false);
    if ok {
      FieldsOfSnoc(created, c);
      AddRowsSnoc(rows0, created, c);
      assert BatchRows(created + [c], next0, now);
    } else {
      assert forall j :: 0 <= j < |items| + 1 && j in failingInserts ==> !(mask + [ok])[j];
    }
  }

  // -------------------------------------------------------------- class

  /** The `containers` table with its auto-increment counter. */
  class ContainerTable {
    var rows: map<nat, Container>
    var nextId: nat

    /** Keys are positive, below the counter and equal to each row's id; unique columns hold. */
    ghost predicate Valid()
      reads this
    {
      TableInvariant(rows, nextId)
    }

    /** An empty table whose first key will be 1. */
    constructor ()
      ensures Valid() && rows == map[] && nextId == 1
    {
      rows := map[];
      nextId := 1;
    }

    /** Every row, in key order. */
    function Listed(): seq<Container>
      reads this
    {
      RowsBelow(rows, nextId)
    }

    /** Inserts one row; the store assigns the key. */
    method CreateContainer(n: NewContainer, now: int, fault: TxFault) returns (r: Result<nat>)
      requires Valid()
      modifies this
      ensures Valid()
      ensures r == CreateVerdict(old(rows), old(nextId), n, fault)
      ensures r.Ok? ==> r.value !in old(rows) && rows == old(rows)[r.value := Inserted(n, r.value, now)]
      ensures r.Ok? ==> nextId == old(nextId) + 1
      ensures !r.Ok? ==> rows == old(rows) && nextId == old(nextId)
    {
      if fault == BeginFails {
        return Err(BeginError);
      }
      var savedRows, savedNext := rows, nextId;
      if fault == WriteFails || Conflicts(rows, n) {
        rows, nextId := savedRows, savedNext;
        return Err(CreateError);
      }
      var id := nextId;
      rows := rows[id := Inserted(n, id, now)];
      nextId := nextId + 1;
      if fault == Panics {
        rows, nextId := savedRows, savedNext;
        return Panic;
      }
      if fault == CommitFails {
        rows, nextId := savedRows, savedNext;
        return Err(CommitError);
      }
      r := Ok(id);
    }

    /**
     * Inserts each container in its own statement inside one transaction,
     * sorting the inputs into created and failed; the transaction is rolled
     * back only when nothing was created and something failed.
     */
    method CreateManyContainers(items: seq<NewContainer>, now: int, failingInserts: set<nat>, fault: TxFault)
      returns (created: seq<Container>, failed: seq<NewContainer>, r: Result<()>, ghost mask: seq<bool>)
      requires Valid()
      modifies this
      ensures Valid()
      ensures fault == BeginFails ==> r == Err(BeginError) && created == [] && failed == []
      ensures fault != BeginFails ==> |mask| == |items|
      ensures fault != BeginFails ==> forall j :: 0 <= j < |items| && j in failingInserts ==> !mask[j]
      ensures fault != BeginFails && !r.Panic? ==> failed == Select(items, mask, false)
      ensures fault != BeginFails && fault != Panics ==>
        (r == Err(AllFailedError) <==> |items| > 0 && true !in mask)
      ensures r.Ok? <==> fault !in {BeginFails, Panics, CommitFails} && (|items| == 0 || true in mask)
      ensures r == Panic <==> fault == Panics
      ensures r == Err(CommitError) <==> fault == CommitFails && (|items| == 0 || true in mask)
      ensures r.Ok? ==> FieldsOf(created) == Select(items, mask, true)
      ensures r.Ok? ==> BatchRows(created, old(nextId), now) && nextId == old(nextId) + |created|
      ensures r.Ok? ==> rows == AddRows(old(rows), created)
      ensures !r.Ok? ==> created == [] && rows == old(rows) && nextId == old(nextId)
    {
      created, failed, mask := [], [], [];
      if fault == BeginFails {
        return created, failed, Err(BeginError), mask;
      }
      var savedRows, savedNext := rows, nextId;
      created, failed, mask := InsertEach(items, now, failingInserts);
      SelectNoneKept(items, mask, true);
      if fault == Panics {
        rows, nextId := savedRows, savedNext;
        return [], failed, Panic, mask;
      }
      if |created| == 0 && |failed| > 0 {
        rows, nextId := savedRows, savedNext;
        return [], failed, Err(AllFailedError), mask;
      }
      if fault == CommitFails {
        rows, nextId := savedRows, savedNext;
        return [], failed, Err(CommitError), mask;
      }
      r := Ok(());
    }

    /** The insert loop of a batch: one statement per item, failures skipped. */
    method InsertEach(items: seq<NewContainer>, now: int, failingInserts: set<nat>)
      returns (created: seq<Container>, failed: seq<NewContainer>, ghost mask: seq<bool>)
      requires Valid()
      modifies this
      ensures Valid()
      ensures |mask| == |items|
      ensures forall j :: 0 <= j < |items| && j in failingInserts ==> !mask[j]
      ensures FieldsOf(created) == Select(items, mask, true)
      ensures failed == Select(items, mask, false)
      ensures BatchRows(created, old(nextId), now) && nextId == old(nextId) + |created|
      ensures rows == AddRows(old(rows), created)
    {
      created, failed, mask := [], [], [];
      var i := 0;
      while i < |items|
        invariant 0 <= i <= |items|
        invariant Valid()
        invariant BatchSoFar(items[..i], mask, failingInserts, created, failed, old(rows), old(nextId), now, rows, nextId)
      {
        assert items[..i + 1] == items[..i] + [items[i]];
        ghost var rows0, next0 := rows, nextId;
        var ok, c := InsertOne(items[i], i in failingInserts, now);
        BatchStep(items[..i], mask, failingInserts, created, failed, old(rows), old(nextId), now, rows0, next0, items[i], ok, c);
        if ok {
          created := created + [c];
        } else {
          failed := failed + [items[i]];
        }
        mask := mask + [ok];
        i := i + 1;
      }
      assert items[..i] == items;
    }

    /**
     * One insert of a batch: it fails when the store refuses it or when the
     * runtime id or name is taken; otherwise the row goes in under the next key.
     */
    method InsertOne(item: NewContainer, refused: bool, now: int) returns (ok: bool, c: Container)
      requires Valid()
      modifies this
      ensures Valid()
      ensures ok <==> !refused && !Conflicts(old(rows), item)
      ensures ok ==> c == Inserted(item, old(nextId), now)
      ensures ok ==> rows == old(rows)[old(nextId) := c] && nextId == old(nextId) + 1
      ensures !ok ==> rows == old(rows) && nextId == old(nextId)
    {
      ok := !(refused || Conflicts(rows, item));
      c := Inserted(item, nextId, now);
      if ok {
        InsertKeepsInvariant(rows, nextId, item, now);
        rows := rows[nextId := c];
        nextId := nextId + 1;
      }
    }

    /** Rewrites the patched columns of one row, looked up inside the same transaction. */
    method UpdateContainer(id: nat, p: PatchMap, now: int, fault: TxFault) returns (r: Result<Container>)
      requires Valid()
      modifies this
      ensures Valid()
      ensures r == UpdateVerdict(old(rows), id, p, now, fault)
      ensures r.Ok? ==> id in old(rows) && rows == old(rows)[id := r.value] && r.value.id == id
      ensures !r.Ok? ==> rows == old(rows)
      ensures nextId == old(nextId)
    {
      if fault == BeginFails {
        return Err(BeginError);
      }
      var savedRows := rows;
      if fault == LookupFails || id !in rows {
        return Err(NotFoundError);
      }
      var current := rows[id];
      var patched := ApplyPatch(current, p, now);
      if patched.None? || fault == WriteFails || ConflictsElsewhere(rows, id, patched.value) {
        return Err(UpdateError);
      }
      var u := patched.value;
      rows := rows[id := u];
      if fault == Panics {
        rows := savedRows;
        return Panic;
      }
      if fault == CommitFails {
        rows := savedRows;
        return Err(CommitError);
      }
      r := Ok(u);
    }

    /** Deletes one row, looked up inside the same transaction. */
    method DeleteContainer(id: nat, fault: TxFault) returns (r: Result<()>)
      requires Valid()
      modifies this
      ensures Valid()
      ensures r == DeleteVerdict(old(rows), id, fault)
      ensures r.Ok? ==> id in old(rows) && rows == old(rows) - {id}
      ensures !r.Ok? ==> rows == old(rows)
      ensures nextId == old(nextId)
    {
      if fault == BeginFails {
        return Err(BeginError);
      }
      var savedRows := rows;
      if fault == LookupFails || id !in rows {
        return Err(NotFoundError);
      }
      if fault == WriteFails {
        return Err(DeleteError);
      }
      rows := rows - {id};
      if fault == Panics {
        rows := savedRows;
        return Panic;
      }
      if fault == CommitFails {
        rows := savedRows;
        return Err(CommitError);
      }
      r := Ok(());
    }

    /** Reads one row by key. */
    method GetContainerByID(id: nat, fails: bool) returns (r: Result<Container>)
      requires Valid()
      ensures r.Ok? <==> !fails && id in rows
      ensures r.Ok? ==> r.value == rows[id] && r.value.id == id
      ensures !r.Ok? ==> r == Err(NotFoundError)
    {
      if fails || id !in rows {
        return Err(NotFoundError);
      }
      r := Ok(rows[id]);
    }

    /** `SELECT id, container_name` over every row, in key order. */
    method GetContainerInfo(fails: bool) returns (r: Result<seq<ContainerName>>)
      requires Valid()
      ensures r.Ok? <==> !fails
      ensures fails ==> r == Err("failed to retrieve container names")
      ensures r.Ok? ==> |r.value| == |rows|
      ensures r.Ok? ==> forall i :: 0 <= i < |r.value| ==>
        r.value[i].id in rows && rows[r.value[i].id].containerName == r.value[i].containerName
      ensures r.Ok? ==> forall k :: k in rows ==> ContainerName(k, rows[k].containerName) in r.value
      ensures r.Ok? ==> forall i, j :: 0 <= i < j < |r.value| ==> r.value[i].id != r.value[j].id
      ensures !r.Panic?
    {
      if fails {
        return Err("failed to retrieve container names");
      }
      NamesOfTable(rows, nextId);
      r := Ok(NamesOf(Listed()));
    }

    /** `SELECT count(*)` over the whole table. */
    method GetNumContainers(fails: bool) returns (r: Result<nat>)
      ensures fails ==> r == Err("failed to count containers")
      ensures !fails ==> r == Ok(|rows|)
    {
      if fails {
        return Err("failed to count containers");
      }
      r := Ok(|rows|);
    }

    /** `SELECT count(*) WHERE status = 'running'`. */
    method GetNumRunningContainers(fails: bool) returns (r: Result<nat>)
      ensures fails ==> r == Err("failed to count running containers")
      ensures !fails ==> r == Ok(|RunningKeys(rows)|)
      ensures r.Ok? ==> r.value <= |rows|
    {
      if fails {
        return Err("failed to count running containers");
      }
      assert RunningKeys(rows) <= rows.Keys;
      ghost var keys := rows.Keys;
      SubsetCard(RunningKeys(rows), keys);
      r := Ok(|RunningKeys(rows)|);
    }

    /**
     * The listing: count the filtered rows, check the sort column, order,
     * then take the `from`..`to` window (10 rows when that is empty).
     */
    method ViewAllContainers(filter: Option<ContainerFilter>, from: int, to: int, sortBy: string, sortOrder: string, fault: QueryFault)
      returns (r: Result<View>)
      requires Valid()
      ensures fault == CountFails ==> r == Err("failed to count containers")
      ensures fault != CountFails && OrderingFor(sortBy, sortOrder).Err? ==> r == Err("invalid sort field: " + sortBy)
      ensures fault == FindFails && OrderingFor(sortBy, sortOrder).Ok? ==> r == Err("failed to retrieve containers")
      ensures r.Ok? <==> fault == QueryOk && OrderingFor(sortBy, sortOrder).Ok?
      ensures r.Ok? ==> r.value.total == |Filter(Listed(), filter)|
      ensures r.Ok? ==>
        r.value.page == Page(SortRows(Filter(Listed(), filter), OrderingFor(sortBy, sortOrder).value), from, PageSize(from, to))
      ensures r.Ok? ==> |r.value.page| <= PageSize(from, to) && r.value.total <= |rows|
      ensures r.Ok? ==> forall c :: c in r.value.page ==> Matches(filter, c) && c.id in rows && rows[c.id] == c
    {
      var query := Listed();
      query := Filter(query, filter);
      if fault == CountFails {
        return Err("failed to count containers");
      }
      var total := |query|;
      var ordering := OrderingFor(sortBy, sortOrder);
      if ordering.Err? {
        return Err(ordering.msg);
      }
      var sorted := SortRows(query, ordering.value);
      var limit := PageSize(from, to);
      if fault == FindFails {
        return Err("failed to retrieve containers");
      }
      var page := Page(sorted, from, limit);
      ListedIsTable();
      SortRowsSortsAndPermutes(query, ordering.value);
      forall c | c in page
        ensures Matches(filter, c) && c.id in rows && rows[c.id] == c
      {
        assert c in multiset(sorted);
        FilterKeepsExactlyMatches(Listed(), filter, c);
        RowsBelowMembers(rows, nextId, c);
      }
      r := Ok(View(total, page));
    }

    /** Listing every row yields each stored row once, in ascending key order, and nothing else. */
    lemma ListedIsTable()
      requires Valid()
      ensures |Listed()| == |rows|
      ensures forall k :: k in rows ==> rows[k] in Listed()
      ensures forall c :: c in Listed() ==> c.id in rows && rows[c.id] == c
      ensures forall i, j :: 0 <= i < j < |Listed()| ==> Listed()[i].id < Listed()[j].id
    {
      RowsBelowIsTable(rows, nextId);
    }
  }

  lemma SubsetCard(a: set<nat>, b: set<nat>)
    requires a <= b
    ensures |a| <= |b|
  {
    if a != {} {
      var x :| x in a;
      SubsetCard(a - {x}, b - {x});
    }
  }

  /** With a nil filter, the listing's total is the table's row count. */
  lemma UnfilteredTotalIsCount(t: ContainerTable)
    requires t.Valid()
    ensures |Filter(t.Listed(), None)| == |t.rows|
  {
    FilterEmptyKeepsAll(t.Listed());
    t.ListedIsTable();
  }
}
