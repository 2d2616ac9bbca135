/**
 * The decisions of the three handlers that change the `connections` table
 * (request, accept, reject), as functions of the table, the set of user ids,
 * the authenticated caller and the parsed request body; and what holds of them
 * over sequences of calls.
 */
module ConnectionRules {
  import opened Wrappers
  import opened Schema

  /**
   * An id read from a JSON body, as the two guards before any lookup see it.
   * `Falsy` stands for a missing or falsy value (`undefined`, `null`, `0`, `""`, `false`);
   * `Truthy(p)` for any other value, `p` being what `parseInt` made of it (`None` for `NaN`).
   */
  datatype IdField = Falsy | Truthy(parsed: Option<int>)

  /** The `code` strings of the handlers' 4xx answers. */
  datatype ConnectionError =
    | MissingConnectedUserId | InvalidConnectedUserId | SelfConnectionNotAllowed | UserNotFound
    | ConnectionPending | AlreadyConnected
    | MissingConnectionId | InvalidConnectionId | ConnectionNotFound
    | NotAuthorized | ConnectionNotPending
    | Forbidden | InvalidStatus

  /** The integer an id field yields once both guards pass. */
  function Parsed(field: IdField): Option<int> {
    if field.Truthy? then field.parsed else None
  }

  /** Row ids are positive, below the next id to hand out, and increase in table order. */
  ghost predicate ValidRows(rows: seq<Connection>, nextId: int) {
    && 1 <= nextId
    && (forall i :: 0 <= i < |rows| ==> 1 <= rows[i].id < nextId)
    && (forall i, j :: 0 <= i < j < |rows| ==> rows[i].id < rows[j].id)
  }

  /** The row links `a` and `b`, in either direction. */
  predicate Between(c: Connection, a: UserId, b: UserId) {
    (c.userId == a && c.connectedUserId == b) || (c.userId == b && c.connectedUserId == a)
  }

  /** The position of the first row of the pair in table order: the one row `.limit(1)` returns. */
  function FirstBetween(rows: seq<Connection>, a: UserId, b: UserId): (r: Option<nat>)
    ensures r.Some? ==> r.value < |rows| && Between(rows[r.value], a, b)
    ensures r.Some? ==> forall j :: 0 <= j < r.value ==> !Between(rows[j], a, b)
    ensures r.None? <==> forall j :: 0 <= j < |rows| ==> !Between(rows[j], a, b)
  {
    if rows == [] then None
    else if Between(rows[0], a, b) then Some(0)
    else match FirstBetween(rows[1..], a, b)
      case None => None
      case Some(i) => Some(i + 1)
  }

  /** The status the duplicate check reads for the pair, if any row of the pair exists. */
  function FirstStatus(rows: seq<Connection>, a: UserId, b: UserId): Option<Status> {
    match FirstBetween(rows, a, b)
    case None => None
    case Some(i) => Some(rows[i].status)
  }

  /** The first row of the pair in table order exists and has status `s`. */
  ghost predicate FirstRowHas(rows: seq<Connection>, a: UserId, b: UserId, s: Status) {
    exists i :: 0 <= i < |rows| && Between(rows[i], a, b) && rows[i].status == s &&
      forall j :: 0 <= j < i ==> !Between(rows[j], a, b)
  }

  lemma FirstRowHasIff(rows: seq<Connection>, a: UserId, b: UserId, s: Status)
    ensures FirstRowHas(rows, a, b, s) <==> FirstStatus(rows, a, b) == Some(s)
  {
    var f := FirstBetween(rows, a, b);
    if FirstRowHas(rows, a, b, s) {
      var i :| 0 <= i < |rows| && Between(rows[i], a, b) && rows[i].status == s &&
        forall j :: 0 <= j < i ==> !Between(rows[j], a, b);
      assert f.Some?;
    }
  }

  /** No row of the table links `a` and `b`. */
  ghost predicate NoRowBetween(rows: seq<Connection>, a: UserId, b: UserId) {
    forall i :: 0 <= i < |rows| ==> !Between(rows[i], a, b)
  }

  /** The body names a target other than the caller. */
  predicate Addressed(field: IdField, caller: UserId) {
    Parsed(field).Some? && Parsed(field).value != caller
  }

  /**
   * The request handler's decision: the guards in their order (missing id, unparsable id,
   * self-request, unknown target, first row of the pair pending, first row accepted), then the
   * pending row it inserts, numbered `nextId` and stamped `now`.
   */
  function RequestResult(rows: seq<Connection>, users: set<UserId>, nextId: int,
                         caller: UserId, connectedUserId: IdField, now: Timestamp)
    : (r: Result<Connection, ConnectionError>)
    ensures connectedUserId.Falsy? <==> r == Failure(MissingConnectedUserId)
    ensures connectedUserId == Truthy(None) <==> r == Failure(InvalidConnectedUserId)
    // refused before any lookup: whether or not the caller is a known user
    ensures connectedUserId == Truthy(Some(caller)) <==> r == Failure(SelfConnectionNotAllowed)
    ensures r == Failure(UserNotFound) <==>
      Addressed(connectedUserId, caller) && Parsed(connectedUserId).value !in users
    ensures r == Failure(ConnectionPending) <==>
      Addressed(connectedUserId, caller) && Parsed(connectedUserId).value in users &&
      FirstRowHas(rows, caller, Parsed(connectedUserId).value, Pending)
    ensures r == Failure(AlreadyConnected) <==>
      Addressed(connectedUserId, caller) && Parsed(connectedUserId).value in users &&
      FirstRowHas(rows, caller, Parsed(connectedUserId).value, Accepted)
    // no row for the pair, or the first one found is rejected
    ensures r.Success? <==>
      Addressed(connectedUserId, caller) && Parsed(connectedUserId).value in users &&
      (NoRowBetween(rows, caller, Parsed(connectedUserId).value) ||
       FirstRowHas(rows, caller, Parsed(connectedUserId).value, Rejected))
    ensures r.Success? ==>
      r.value == Connection(nextId, caller, Parsed(connectedUserId).value, Pending, now)
  {
    match connectedUserId
    case Falsy => Failure(MissingConnectedUserId)
    case Truthy(None) => Failure(InvalidConnectedUserId)
    case Truthy(Some(target)) =>
      if caller == target then Failure(SelfConnectionNotAllowed)
      else if target !in users then Failure(UserNotFound)
      else
        FirstRowHasIff(rows, caller, target, Pending);
        FirstRowHasIff(rows, caller, target, Accepted);
        FirstRowHasIff(rows, caller, target, Rejected);
        match FirstStatus(rows, caller, target)
        case Some(Pending) => Failure(ConnectionPending)
        case Some(Accepted) => Failure(AlreadyConnected)
        case _ => Success(Connection(nextId, caller, target, Pending, now))
  }

  /** The table after a request: the new row appended when the request succeeds. */
  function AfterRequest(rows: seq<Connection>, r: Result<Connection, ConnectionError>): seq<Connection> {
    if r.Success? then rows + [r.value] else rows
  }

  /** Accepting and rejecting differ only in the status written and in two error codes. */
  datatype Decision = Accept | Reject

  function Outcome(d: Decision): Status {
    if d == Accept then Accepted else Rejected
  }

  /** NOT_AUTHORIZED when accepting, FORBIDDEN when rejecting. */
  function NotReceiverError(d: Decision): ConnectionError {
    if d == Accept then NotAuthorized else Forbidden
  }

  /** CONNECTION_NOT_PENDING when accepting, INVALID_STATUS when rejecting. */
  function NotPendingError(d: Decision): ConnectionError {
    if d == Accept then ConnectionNotPending else InvalidStatus
  }

  /** The position of the first row with this id: the row `select ... where id = ... limit 1` returns. */
  function FindById(rows: seq<Connection>, id: int): (r: Option<nat>)
    ensures r.Some? ==> r.value < |rows| && rows[r.value].id == id
    ensures r.Some? ==> forall j :: 0 <= j < r.value ==> rows[j].id != id
    ensures r.None? <==> forall j :: 0 <= j < |rows| ==> rows[j].id != id
  {
    if rows == [] then None
    else if rows[0].id == id then Some(0)
    else match FindById(rows[1..], id)
      case None => None
      case Some(i) => Some(i + 1)
  }

  /**
   * The accept or reject handler's decision: missing id, unparsable id, unknown id, caller
   * not the receiver, row not pending; otherwise the row with its new status.
   */
  function ReviewResult(rows: seq<Connection>, caller: UserId, connectionId: IdField, d: Decision)
    : (r: Result<Connection, ConnectionError>)
    ensures connectionId.Falsy? <==> r == Failure(MissingConnectionId)
    ensures connectionId == Truthy(None) <==> r == Failure(InvalidConnectionId)
    ensures r == Failure(ConnectionNotFound) <==>
      Parsed(connectionId).Some? && forall i :: 0 <= i < |rows| ==> rows[i].id != Parsed(connectionId).value
    // the receiver check comes first: a row the caller did not receive is refused whatever its status
    ensures Parsed(connectionId).Some? ==>
      forall i :: (0 <= i < |rows| && rows[i].id == Parsed(connectionId).value &&
        (forall j :: 0 <= j < |rows| && rows[j].id == rows[i].id ==> j == i)) ==>
        r == (if rows[i].connectedUserId != caller then Failure(NotReceiverError(d))
              else if rows[i].status != Pending then Failure(NotPendingError(d))
              else Success(rows[i].(status := Outcome(d))))
    ensures r.Success? ==>
      exists i :: 0 <= i < |rows| && rows[i].id == r.value.id && rows[i].connectedUserId == caller &&
        rows[i].status == Pending && r.value == rows[i].(status := Outcome(d))
  {
    match connectionId
    case Falsy => Failure(MissingConnectionId)
    case Truthy(None) => Failure(InvalidConnectionId)
    case Truthy(Some(id)) =>
      match FindById(rows, id)
      case None => Failure(ConnectionNotFound)
      case Some(i) =>
        var row := rows[i];
        if row.connectedUserId != caller then Failure(NotReceiverError(d))
        else if row.status != Pending then Failure(NotPendingError(d))
        else Success(row.(status := Outcome(d)))
  }

  /** `update connections set status = s where id = id`: every row with that id, and no other, gets `s`. */
  function SetStatus(rows: seq<Connection>, id: int, s: Status): (r: seq<Connection>)
    ensures |r| == |rows|
    ensures forall i :: 0 <= i < |rows| ==>
      r[i] == (if rows[i].id == id then rows[i].(status := s) else rows[i])
  {
    seq(|rows|, i requires 0 <= i < |rows| => if rows[i].id == id then rows[i].(status := s) else rows[i])
  }

  /** The table after an accept or reject: the update runs only when every guard passed. */
  function AfterReview(rows: seq<Connection>, r: Result<Connection, ConnectionError>): seq<Connection> {
    if r.Success? then SetStatus(rows, r.value.id, r.value.status) else rows
  }

  // ----- Invariants kept by each step -----

  /** A successful request keeps the ids valid; its row takes the next id. */
  lemma RequestKeepsValid(rows: seq<Connection>, users: set<UserId>, nextId: int,
                          caller: UserId, field: IdField, now: Timestamp)
    requires ValidRows(rows, nextId)
    ensures var r := RequestResult(rows, users, nextId, caller, field, now);
      && ValidRows(AfterRequest(rows, r), if r.Success? then nextId + 1 else nextId)
      && (r.Success? ==> AfterRequest(rows, r) == rows + [r.value] && r.value.id == nextId)
  {
  }

  /**
   * Accepting or rejecting keeps the ids valid, touches only the row with the given id, and on
   * that row changes nothing but its status, from pending to the decided one.
   */
  lemma ReviewKeepsValid(rows: seq<Connection>, nextId: int, caller: UserId, field: IdField, d: Decision)
    requires ValidRows(rows, nextId)
    ensures var r := ReviewResult(rows, caller, field, d);
      var after := AfterReview(rows, r);
      && ValidRows(after, nextId)
      && |after| == |rows|
      && forall i :: 0 <= i < |rows| ==>
           after[i] == rows[i] ||
           (r.Success? && rows[i].id == r.value.id && rows[i].status == Pending &&
            after[i] == rows[i].(status := Outcome(d)))
  {
    var r := ReviewResult(rows, caller, field, d);
    if r.Success? {
      var k :| 0 <= k < |rows| && rows[k].id == r.value.id && rows[k].connectedUserId == caller &&
        rows[k].status == Pending && r.value == rows[k].(status := Outcome(d));
    }
  }

  // ----- Properties of sequences of calls -----

  /** A row of the pair with no row of the pair before it is the first row of the pair. */
  lemma FirstBetweenIs(s: seq<Connection>, a: UserId, b: UserId, i: nat)
    requires i < |s| && Between(s[i], a, b)
    requires forall j :: 0 <= j < i ==> !Between(s[j], a, b)
    ensures FirstBetween(s, a, b) == Some(i)
  {
  }

  /** Appending a row leaves the first row of a pair where it was, if there was one. */
  lemma FirstBetweenAppend(rows: seq<Connection>, x: Connection, a: UserId, b: UserId)
    ensures FirstBetween(rows + [x], a, b) ==
      if FirstBetween(rows, a, b).Some? then FirstBetween(rows, a, b)
      else if Between(x, a, b) then Some(|rows|)
      else None
  {
    var s := rows + [x];
    var f := FirstBetween(rows, a, b);
    assert forall j :: 0 <= j < |rows| ==> s[j] == rows[j];
    assert s[|rows|] == x;
    if f.Some? {
      FirstBetweenIs(s, a, b, f.value);
    } else if Between(x, a, b) {
      FirstBetweenIs(s, a, b, |rows|);
    } else {
      assert forall j :: 0 <= j < |s| ==> !Between(s[j], a, b) by {
        forall j | 0 <= j < |s| ensures !Between(s[j], a, b) {
          if j < |rows| { assert s[j] == rows[j]; } else { assert s[j] == x; }
        }
      }
    }
  }

  /**
   * The pending block is symmetric: once `a` has asked `b` (the pair having no row before),
   * `b` asking `a` is refused with CONNECTION_PENDING and inserts nothing.
   */
  lemma PendingBlockIsSymmetric(rows: seq<Connection>, users: set<UserId>, nextId: int,
                                a: UserId, b: UserId, now: Timestamp, later: Timestamp)
    requires a != b && a in users && b in users
    requires NoRowBetween(rows, a, b)
    ensures var r := RequestResult(rows, users, nextId, a, Truthy(Some(b)), now);
      && r.Success?
      && RequestResult(AfterRequest(rows, r), users, nextId + 1, b, Truthy(Some(a)), later)
         == Failure(ConnectionPending)
  {
    var r := RequestResult(rows, users, nextId, a, Truthy(Some(b)), now);
    FirstBetweenAppend(rows, r.value, b, a);
    assert FirstStatus(rows + [r.value], b, a) == Some(Pending);
  }

  /** Looking an id up again after a status update finds the same position. */
  lemma FindByIdAfterSetStatus(rows: seq<Connection>, id: int, target: int, s: Status)
    ensures FindById(SetStatus(rows, id, s), target) == FindById(rows, target)
  {
    var t := SetStatus(rows, id, s);
    var f, g := FindById(rows, target), FindById(t, target);
    assert forall j :: 0 <= j < |rows| ==> t[j].id == rows[j].id;
  }

  /**
   * A decided request stays decided: after a successful accept or reject of an id, no further
   * accept or reject of that id succeeds, and its receiver gets the not-pending code
   * (accepting twice, rejecting twice and rejecting after accepting all fail).
   */
  lemma ReviewIsFinal(rows: seq<Connection>, receiver: UserId, id: int, d: Decision,
                      anyone: UserId, d2: Decision)
    requires ReviewResult(rows, receiver, Truthy(Some(id)), d).Success?
    ensures var after := AfterReview(rows, ReviewResult(rows, receiver, Truthy(Some(id)), d));
      && ReviewResult(after, anyone, Truthy(Some(id)), d2).Failure?
      && ReviewResult(after, receiver, Truthy(Some(id)), d2) == Failure(NotPendingError(d2))
  {
    var i := FindById(rows, id).value;
    var row := rows[i].(status := Outcome(d));
    assert ReviewResult(rows, receiver, Truthy(Some(id)), d) == Success(row);
    var after := SetStatus(rows, id, Outcome(d));
    assert AfterReview(rows, Success(row)) == after;
    FindByIdAfterSetStatus(rows, id, id, Outcome(d));
    assert after[i] == row && row.connectedUserId == receiver && row.status != Pending;
  }

  /** A status update leaves the first row of every pair where it was. */
  lemma FirstBetweenAfterSetStatus(rows: seq<Connection>, id: int, s: Status, a: UserId, b: UserId)
    ensures FirstBetween(SetStatus(rows, id, s), a, b) == FirstBetween(rows, a, b)
  {
    var t := SetStatus(rows, id, s);
    assert forall j :: 0 <= j < |rows| ==> (Between(t[j], a, b) <==> Between(rows[j], a, b));
  }

  /** A row appended with the next id is the one row found under that id. */
  lemma FindNewRow(rows: seq<Connection>, nextId: int, x: Connection)
    requires ValidRows(rows, nextId) && x.id == nextId
    ensures FindById(rows + [x], nextId) == Some(|rows|)
  {
    var s := rows + [x];
    assert s[|rows|] == x;
    assert forall j :: 0 <= j < |rows| ==> s[j] == rows[j];
  }

  /**
   * Rejection does not block for good: after `a` asks `b` and `b` rejects, a new request
   * succeeds in either direction.
   */
  lemma RejectReopensPair(rows: seq<Connection>, users: set<UserId>, nextId: int,
                          a: UserId, b: UserId, t1: Timestamp, t2: Timestamp)
    requires ValidRows(rows, nextId)
    requires a != b && a in users && b in users
    requires NoRowBetween(rows, a, b)
    ensures var r1 := RequestResult(rows, users, nextId, a, Truthy(Some(b)), t1);
      var s1 := AfterRequest(rows, r1);
      var r2 := ReviewResult(s1, b, Truthy(Some(nextId)), Reject);
      var s2 := AfterReview(s1, r2);
      && r1.Success? && r2.Success?
      && RequestResult(s2, users, nextId + 1, a, Truthy(Some(b)), t2).Success?
      && RequestResult(s2, users, nextId + 1, b, Truthy(Some(a)), t2).Success?
  {
    var x := Connection(nextId, a, b, Pending, t1);
    assert RequestResult(rows, users, nextId, a, Truthy(Some(b)), t1) == Success(x);
    var s1 := rows + [x];
    FindNewRow(rows, nextId, x);
    assert s1[|rows|] == x;
    assert ReviewResult(s1, b, Truthy(Some(nextId)), Reject) == Success(x.(status := Rejected));
    var s2 := SetStatus(s1, nextId, Rejected);
    assert s2[|rows|] == x.(status := Rejected);
    FirstBetweenAppend(rows, x, a, b);
    FirstBetweenAppend(rows, x, b, a);
    FirstBetweenAfterSetStatus(s1, nextId, Rejected, a, b);
    FirstBetweenAfterSetStatus(s1, nextId, Rejected, b, a);
    assert FirstStatus(s2, a, b) == Some(Rejected);
    assert FirstStatus(s2, b, a) == Some(Rejected);
    FirstRowHasIff(s2, a, b, Rejected);
    FirstRowHasIff(s2, b, a, Rejected);
  }

  /** The number of pending rows that link `a` and `b`. */
  function PendingBetween(rows: seq<Connection>, a: UserId, b: UserId): nat {
    if rows == [] then 0
    else
      var last := rows[|rows| - 1];
      PendingBetween(rows[..|rows| - 1], a, b) + (if Between(last, a, b) && last.status == Pending then 1 else 0)
  }

  /**
   * The duplicate check only reads the first row of the pair: while that row is rejected,
   * every new request between `a` and `b` is let through, so two requests in a row leave two
   * more pending rows for the same pair.
   */
  lemma RejectedFirstRowLetsDuplicatesIn(rows: seq<Connection>, users: set<UserId>, nextId: int,
                                         a: UserId, b: UserId, t1: Timestamp, t2: Timestamp)
    requires a != b && b in users
    requires FirstRowHas(rows, a, b, Rejected)
    ensures var r1 := RequestResult(rows, users, nextId, a, Truthy(Some(b)), t1);
      var s1 := AfterRequest(rows, r1);
      var r2 := RequestResult(s1, users, nextId + 1, a, Truthy(Some(b)), t2);
      var s2 := AfterRequest(s1, r2);
      && r1.Success? && r2.Success?
      && PendingBetween(s2, a, b) == PendingBetween(rows, a, b) + 2
  {
    var r1 := RequestResult(rows, users, nextId, a, Truthy(Some(b)), t1);
    var s1 := rows + [r1.value];
    FirstRowHasIff(rows, a, b, Rejected);
    FirstBetweenAppend(rows, r1.value, a, b);
    FirstRowHasIff(s1, a, b, Rejected);
    var r2 := RequestResult(s1, users, nextId + 1, a, Truthy(Some(b)), t2);
    var s2 := s1 + [r2.value];
    assert s2[..|s2| - 1] == s1;
    assert s1[..|s1| - 1] == rows;
  }
}
