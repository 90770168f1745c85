/**
 * The department-choice table behind POST /choices, DELETE /choices/:id and
 * GET /choices/:userId: a user may choose a department once, and at most
 * three departments in all.
 */
module Choices {
  import opened Wrappers
  import opened JsNumbers

  /** A UserChoice row. */
  datatype ChoiceRow = ChoiceRow(id: int, userId: int, departmentId: int)

  /** What POST /choices answers: the stored row, or which check rejected the request. */
  datatype AddOutcome =
    | Added(row: ChoiceRow)
    | MissingField     // userId or departmentId missing
    | AlreadyChosen    // the user already chose this department
    | LimitReached     // the user already has the maximum number of choices

  /** The most choices a user may hold. */
  const MaxChoices: int := 3

  /** `UserChoice.count({ where: { userId } })` */
  function CountFor(rows: seq<ChoiceRow>, userId: int): nat
    decreases |rows|
  {
    if rows == [] then 0
    else CountFor(rows[..|rows| - 1], userId) + (if rows[|rows| - 1].userId == userId then 1 else 0)
  }

  /** `UserChoice.findOne({ where: { userId, departmentId } })` finds a row. */
  predicate HasPair(rows: seq<ChoiceRow>, userId: int, departmentId: int) {
    exists i :: 0 <= i < |rows| && rows[i].userId == userId && rows[i].departmentId == departmentId
  }

  /** `UserChoice.findAll({ where: { userId } })`: the user's rows, in table order. */
  function ForUser(rows: seq<ChoiceRow>, userId: int): seq<ChoiceRow>
    decreases |rows|
  {
    if rows == [] then []
    else
      var rest := ForUser(rows[..|rows| - 1], userId);
      if rows[|rows| - 1].userId == userId then rest + [rows[|rows| - 1]] else rest
  }

  /** The table after `UserChoice.destroy({ where: { id } })`. */
  function WithoutId(rows: seq<ChoiceRow>, id: int): seq<ChoiceRow>
    decreases |rows|
  {
    if rows == [] then []
    else
      var rest := WithoutId(rows[..|rows| - 1], id);
      if rows[|rows| - 1].id == id then rest else rest + [rows[|rows| - 1]]
  }

  /** The checks of POST /choices, in the order the route makes them; a new row takes id `nextId`. */
  function AddOutcomeOf(rows: seq<ChoiceRow>, nextId: int, userId: Option<int>, departmentId: Option<int>): AddOutcome {
    if !TruthyInt(userId) || !TruthyInt(departmentId) then MissingField
    else if HasPair(rows, userId.value, departmentId.value) then AlreadyChosen
    else if CountFor(rows, userId.value) >= MaxChoices then LimitReached
    else Added(ChoiceRow(nextId, userId.value, departmentId.value))
  }

  /** The table after POST /choices: one new row when the checks pass, untouched otherwise. */
  function AfterAdd(rows: seq<ChoiceRow>, nextId: int, userId: Option<int>, departmentId: Option<int>): (r: seq<ChoiceRow>)
    ensures !AddOutcomeOf(rows, nextId, userId, departmentId).Added? ==> r == rows
    ensures AddOutcomeOf(rows, nextId, userId, departmentId).Added? ==>
      r == rows + [ChoiceRow(nextId, userId.value, departmentId.value)]
  {
    match AddOutcomeOf(rows, nextId, userId, departmentId)
    case Added(row) => rows + [row]
    case _ => rows
  }

  /** No user holds more than the maximum number of choices. */
  ghost predicate Capped(rows: seq<ChoiceRow>) {
    forall u :: CountFor(rows, u) <= MaxChoices
  }

  /** The unique index on (userId, departmentId). */
  ghost predicate PairsUnique(rows: seq<ChoiceRow>) {
    forall i, j :: 0 <= i < j < |rows| ==> (rows[i].userId, rows[i].departmentId) != (rows[j].userId, rows[j].departmentId)
  }

  /** Auto-increment ids: distinct, and below the next id to hand out. */
  ghost predicate IdsFresh(rows: seq<ChoiceRow>, nextId: int) {
    && (forall i :: 0 <= i < |rows| ==> rows[i].id < nextId)
    && (forall i, j :: 0 <= i < j < |rows| ==> rows[i].id != rows[j].id)
  }

  // ------------------------------------------------------------ the table

  class ChoiceTable {
    var rows: seq<ChoiceRow>
    var nextId: int

    ghost predicate Valid()
      reads this
    {
      IdsFresh(rows, nextId) && PairsUnique(rows) && Capped(rows)
    }

    constructor ()
      ensures Valid()
      ensures rows == [] && nextId == 1
    {
      rows := [];
      nextId := 1;
    }

    /** POST /choices */
    method Add(userId: Option<int>, departmentId: Option<int>) returns (outcome: AddOutcome)
      requires Valid()
      modifies this
      ensures Valid()
      ensures outcome == AddOutcomeOf(old(rows), old(nextId), userId, departmentId)
      ensures rows == AfterAdd(old(rows), old(nextId), userId, departmentId)
      ensures nextId == if outcome.Added? then old(nextId) + 1 else old(nextId)
    {
      if !TruthyInt(userId) || !TruthyInt(departmentId) {
        return MissingField;
      }
      if HasPair(rows, userId.value, departmentId.value) {
        return AlreadyChosen;
      }
      var count := CountFor(rows, userId.value);
      if count >= MaxChoices {
        return LimitReached;
      }
      var choice := ChoiceRow(nextId, userId.value, departmentId.value);
      AddKeepsCap(rows, nextId, userId, departmentId);
      AddKeepsPairsUnique(rows, nextId, userId, departmentId);
      rows := rows + [choice];
      nextId := nextId + 1;
      outcome := Added(choice);
    }

    /** DELETE /choices/:id */
    method Delete(id: int)
      requires Valid()
      modifies this
      ensures Valid()
      ensures rows == WithoutId(old(rows), id)
      ensures nextId == old(nextId)
    {
      DeleteKeepsInvariants(rows, nextId, id);
      rows := WithoutId(rows, id);
    }

    /** GET /choices/:userId: the user's rows. */
    method ChoicesOf(userId: int) returns (choices: seq<ChoiceRow>)
      ensures forall c :: c in choices <==> c in rows && c.userId == userId
      ensures |choices| == CountFor(rows, userId)
    {
      choices := ForUser(rows, userId);
      ForUserIsTheUsersRows(rows, userId);
    }
  }

  // ------------------------------------------------------------ properties

  lemma CountForAppend(rows: seq<ChoiceRow>, row: ChoiceRow, u: int)
    ensures CountFor(rows + [row], u) == CountFor(rows, u) + (if row.userId == u then 1 else 0)
  {
    assert (rows + [row])[..|rows|] == rows;
  }

  /** An add that passes the checks raises the adding user's count by one and no other user's. */
  lemma AddCountsOneRow(rows: seq<ChoiceRow>, nextId: int, userId: Option<int>, departmentId: Option<int>, u: int)
    ensures CountFor(AfterAdd(rows, nextId, userId, departmentId), u)
         == CountFor(rows, u) + (if AddOutcomeOf(rows, nextId, userId, departmentId).Added? && u == userId.value then 1 else 0)
  {
    if AddOutcomeOf(rows, nextId, userId, departmentId).Added? {
      CountForAppend(rows, ChoiceRow(nextId, userId.value, departmentId.value), u);
    }
  }

  /** The add route never takes a user past the maximum number of choices. */
  lemma AddKeepsCap(rows: seq<ChoiceRow>, nextId: int, userId: Option<int>, departmentId: Option<int>)
    requires Capped(rows)
    ensures Capped(AfterAdd(rows, nextId, userId, departmentId))
  {
    forall u
      ensures CountFor(AfterAdd(rows, nextId, userId, departmentId), u) <= MaxChoices
    {
      AddCountsOneRow(rows, nextId, userId, departmentId, u);
    }
  }

  /** The add route never stores a (user, department) pair twice. */
  lemma AddKeepsPairsUnique(rows: seq<ChoiceRow>, nextId: int, userId: Option<int>, departmentId: Option<int>)
    requires PairsUnique(rows)
    ensures PairsUnique(AfterAdd(rows, nextId, userId, departmentId))
  {
  }

  /** A user at the cap is refused whatever the department. */
  lemma FullUserIsRefused(rows: seq<ChoiceRow>, nextId: int, userId: int, departmentId: Option<int>)
    requires userId != 0
    requires CountFor(rows, userId) >= MaxChoices
    ensures !AddOutcomeOf(rows, nextId, Some(userId), departmentId).Added?
    ensures AfterAdd(rows, nextId, Some(userId), departmentId) == rows
  {
  }

  /** Deleting by id removes exactly the rows with that id; WithoutIdIsSubsequence adds that the others keep their order. */
  lemma {:induction false} WithoutIdRemovesOnlyThatId(rows: seq<ChoiceRow>, id: int)
    ensures forall c :: c in WithoutId(rows, id) <==> c in rows && c.id != id
    ensures |WithoutId(rows, id)| <= |rows|
  {
    if rows != [] {
      var init := rows[..|rows| - 1];
      WithoutIdRemovesOnlyThatId(init, id);
      assert rows == init + [rows[|rows| - 1]];
    }
  }

  /** A delete never raises any user's count. */
  lemma {:induction false} DeleteNeverRaisesCount(rows: seq<ChoiceRow>, id: int, u: int)
    ensures CountFor(WithoutId(rows, id), u) <= CountFor(rows, u)
  {
    if rows != [] {
      var init := rows[..|rows| - 1];
      DeleteNeverRaisesCount(init, id, u);
      if rows[|rows| - 1].id != id {
        CountForAppend(WithoutId(init, id), rows[|rows| - 1], u);
      }
    }
  }

  /** idx lists, in increasing order, the positions of rows that sub is made of. */
  ghost predicate EmbeddedAt(sub: seq<ChoiceRow>, rows: seq<ChoiceRow>, idx: seq<int>) {
    && |idx| == |sub|
    && (forall k :: 0 <= k < |idx| ==> 0 <= idx[k] < |rows| && sub[k] == rows[idx[k]])
    && (forall k, l :: 0 <= k < l < |idx| ==> idx[k] < idx[l])
  }

  lemma EmbeddedAtSnoc(sub: seq<ChoiceRow>, rows: seq<ChoiceRow>, idx: seq<int>, row: ChoiceRow)
    requires EmbeddedAt(sub, rows, idx)
    ensures EmbeddedAt(sub + [row], rows + [row], idx + [|rows|])
    ensures EmbeddedAt(sub, rows + [row], idx)
  {
    var idx' := idx + [|rows|];
    forall k | 0 <= k < |idx'|
      ensures 0 <= idx'[k] < |rows| + 1 && (sub + [row])[k] == (rows + [row])[idx'[k]]
    {
      if k < |idx| {
        assert idx'[k] == idx[k];
      }
    }
  }

  /** Deleting keeps whatever elements it keeps in their order, so subsequences keep the table's invariants. */
  lemma {:induction false} WithoutIdIsSubsequence(rows: seq<ChoiceRow>, id: int)
    ensures exists idx: seq<int> :: EmbeddedAt(WithoutId(rows, id), rows, idx)
  {
    if rows == [] {
      assert WithoutId(rows, id) == [];
      assert EmbeddedAt(WithoutId(rows, id), rows, []);
    } else {
      var init := rows[..|rows| - 1];
      var last := rows[|rows| - 1];
      assert rows == init + [last];
      WithoutIdIsSubsequence(init, id);
      var idx: seq<int> :| EmbeddedAt(WithoutId(init, id), init, idx);
      EmbeddedAtSnoc(WithoutId(init, id), init, idx, last);
      if last.id != id {
        assert EmbeddedAt(WithoutId(rows, id), rows, idx + [|init|]);
      } else {
        assert EmbeddedAt(WithoutId(rows, id), rows, idx);
      }
    }
  }

  /** A delete keeps ids fresh, pairs unique and every user within the cap. */
  lemma DeleteKeepsInvariants(rows: seq<ChoiceRow>, nextId: int, id: int)
    requires IdsFresh(rows, nextId) && PairsUnique(rows) && Capped(rows)
    ensures IdsFresh(WithoutId(rows, id), nextId) && PairsUnique(WithoutId(rows, id)) && Capped(WithoutId(rows, id))
  {
    var r := WithoutId(rows, id);
    WithoutIdIsSubsequence(rows, id);
    var idx: seq<int> :| EmbeddedAt(r, rows, idx);
    forall u
      ensures CountFor(r, u) <= MaxChoices
    {
      DeleteNeverRaisesCount(rows, id, u);
    }
  }

  /** Listing returns exactly the user's rows, as many as the count query counts. */
  lemma {:induction false} ForUserIsTheUsersRows(rows: seq<ChoiceRow>, u: int)
    ensures forall c :: c in ForUser(rows, u) <==> c in rows && c.userId == u
    ensures |ForUser(rows, u)| == CountFor(rows, u)
  {
    if rows != [] {
      var init := rows[..|rows| - 1];
      ForUserIsTheUsersRows(init, u);
      assert rows == init + [rows[|rows| - 1]];
    }
  }

  /** One add that passes the checks appends its row and raises the user's count by one. */
  lemma AcceptedAdd(rows: seq<ChoiceRow>, nextId: int, u: int, d: int)
    requires u != 0 && d != 0
    requires forall k :: 0 <= k < |rows| ==> rows[k].departmentId != d
    requires CountFor(rows, u) < MaxChoices
    ensures AfterAdd(rows, nextId, Some(u), Some(d)) == rows + [ChoiceRow(nextId, u, d)]
    ensures CountFor(AfterAdd(rows, nextId, Some(u), Some(d)), u) == CountFor(rows, u) + 1
  {
    assert !HasPair(rows, u, d) by {
      forall i | 0 <= i < |rows|
        ensures !(rows[i].userId == u && rows[i].departmentId == d)
      {
      }
    }
    assert AddOutcomeOf(rows, nextId, Some(u), Some(d)) == Added(ChoiceRow(nextId, u, d));
    CountForAppend(rows, ChoiceRow(nextId, u, d), u);
  }

  /** Three different departments are accepted for a user; a fourth is refused for the cap. */
  lemma FourthChoiceRefused(u: int)
    requires u != 0
    ensures var t1 := AfterAdd([], 1, Some(u), Some(1));
            var t2 := AfterAdd(t1, 2, Some(u), Some(2));
            var t3 := AfterAdd(t2, 3, Some(u), Some(3));
            && |t3| == 3
            && AddOutcomeOf(t3, 4, Some(u), Some(4)) == LimitReached
  {
    AcceptedAdd([], 1, u, 1);
    var t1 := AfterAdd([], 1, Some(u), Some(1));
    AcceptedAdd(t1, 2, u, 2);
    var t2 := AfterAdd(t1, 2, Some(u), Some(2));
    AcceptedAdd(t2, 3, u, 3);
    var t3 := AfterAdd(t2, 3, Some(u), Some(3));
    assert t3 == [ChoiceRow(1, u, 1), ChoiceRow(2, u, 2), ChoiceRow(3, u, 3)];
    assert !HasPair(t3, u, 4);
  }
}
