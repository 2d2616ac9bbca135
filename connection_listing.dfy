/**
 * The two GET handlers that read the `connections` table: the caller's accepted connections,
 * each with the other party's profile, and the pending requests the caller has received, each
 * with the requester's profile. Both order by `createdAt` descending.
 */
module ConnectionListing {
  import opened Wrappers
  import opened Schema
  import opened TextOrder

  // ----- ORDER BY created_at DESC -----

  /** Newest first: `createdAt` never increases along the sequence. */
  ghost predicate NewestFirst(s: seq<Connection>) {
    forall i, j :: 0 <= i < j < |s| ==> TextLe(s[j].createdAt, s[i].createdAt)
  }

  /** Every row of `s` was created at or before `t`. */
  ghost predicate AllAtMost(s: seq<Connection>, t: Timestamp) {
    forall c :: c in s ==> TextLe(c.createdAt, t)
  }

  lemma NewestFirstCons(x: Connection, s: seq<Connection>)
    requires NewestFirst(s) && AllAtMost(s, x.createdAt)
    ensures NewestFirst([x] + s)
  {
    var t := [x] + s;
    forall i, j | 0 <= i < j < |t| ensures TextLe(t[j].createdAt, t[i].createdAt) {
      assert t[j] == s[j - 1];
      if i > 0 { assert t[i] == s[i - 1]; }
    }
  }

  lemma NewestFirstTail(s: seq<Connection>)
    requires NewestFirst(s) && s != []
    ensures NewestFirst(s[1..]) && AllAtMost(s[1..], s[0].createdAt)
  {
    forall c | c in s[1..] ensures TextLe(c.createdAt, s[0].createdAt) {
      var k :| 0 <= k < |s[1..]| && s[1..][k] == c;
      assert s[k + 1] == c;
    }
  }

  /** `x` placed before the first row not newer than it. */
  function InsertByDate(x: Connection, s: seq<Connection>): (r: seq<Connection>)
    requires NewestFirst(s)
    ensures multiset(r) == multiset(s) + multiset{x}
    ensures NewestFirst(r)
  {
    if s == [] then [x]
    else if TextLe(s[0].createdAt, x.createdAt) then
      NewestFirstTail(s);
      forall c | c in s ensures TextLe(c.createdAt, x.createdAt) {
        if c != s[0] {
          assert c in s[1..] by { var k :| 0 <= k < |s| && s[k] == c; assert s[1..][k - 1] == c; }
          TextLeTransitive(c.createdAt, s[0].createdAt, x.createdAt);
        }
      }
      NewestFirstCons(x, s);
      [x] + s
    else
      NewestFirstTail(s);
      TextLeTotal(s[0].createdAt, x.createdAt);
      var rest := InsertByDate(x, s[1..]);
      assert s == [s[0]] + s[1..];
      forall c | c in rest ensures TextLe(c.createdAt, s[0].createdAt) {
        assert c in multiset(rest);
      }
      NewestFirstCons(s[0], rest);
      [s[0]] + rest
  }

  /**
   * ORDER BY created_at DESC: the same rows, newest first. Rows with equal timestamps keep
   * their table order.
   */
  function SortNewestFirst(s: seq<Connection>): (r: seq<Connection>)
    ensures multiset(r) == multiset(s)
    ensures NewestFirst(r)
  {
    if s == [] then []
    else
      assert s == [s[0]] + s[1..];
      InsertByDate(s[0], SortNewestFirst(s[1..]))
  }

  // ----- GET /api/connections -----

  /** The row is accepted and the caller is on one side of it. */
  predicate AcceptedWith(c: Connection, caller: UserId) {
    c.status == Accepted && (c.userId == caller || c.connectedUserId == caller)
  }

  /** `where status = 'accepted' and (user_id = caller or connected_user_id = caller)`, in table order. */
  function SelectAccepted(rows: seq<Connection>, caller: UserId): (r: seq<Connection>)
    ensures forall c :: c in r <==> c in rows && AcceptedWith(c, caller)
    ensures forall c :: multiset(r)[c] == if AcceptedWith(c, caller) then multiset(rows)[c] else 0
  {
    if rows == [] then []
    else
      assert rows == [rows[0]] + rows[1..];
      var rest := SelectAccepted(rows[1..], caller);
      if AcceptedWith(rows[0], caller) then [rows[0]] + rest else rest
  }

  /** The party of the row who is not the caller: the receiver when the caller sent it, else the sender. */
  function OtherParty(c: Connection, caller: UserId): (u: UserId)
    ensures c.userId == caller || c.connectedUserId == caller ==> u != caller || c.userId == c.connectedUserId
    ensures u == c.userId || u == c.connectedUserId
  {
    if c.userId == caller then c.connectedUserId else c.userId
  }

  /** One element of the answer: the row's own fields and the other party's profile. */
  datatype AcceptedConnection = AcceptedConnection(connection: Connection, connectedUser: PublicProfile)

  /** The answer `{ connections, count }`. */
  datatype AcceptedList = AcceptedList(connections: seq<AcceptedConnection>, count: nat)

  function AcceptedRows(es: seq<AcceptedConnection>): (r: seq<Connection>)
    ensures |r| == |es| && forall i :: 0 <= i < |es| ==> r[i] == es[i].connection
  {
    seq(|es|, i requires 0 <= i < |es| => es[i].connection)
  }

  lemma AcceptedRowsCons(e: AcceptedConnection, es: seq<AcceptedConnection>)
    ensures AcceptedRows([e] + es) == [e.connection] + AcceptedRows(es)
  {
    var l, r := AcceptedRows([e] + es), [e.connection] + AcceptedRows(es);
    forall i | 0 <= i < |l| ensures l[i] == r[i] {
      if i > 0 { assert ([e] + es)[i] == es[i - 1]; }
    }
  }

  /**
   * Each row mapped to its other party's profile, and the rows whose other party is not in
   * `users` dropped without an error; the order is kept.
   */
  function JoinOther(s: seq<Connection>, users: map<UserId, UserRow>, caller: UserId)
    : (r: seq<AcceptedConnection>)
    ensures forall e :: e in r ==>
      e.connection in s && OtherParty(e.connection, caller) in users &&
      e.connectedUser == ProfileOf(users[OtherParty(e.connection, caller)])
    ensures KeyedById(users) ==> forall e :: e in r ==> e.connectedUser.id == OtherParty(e.connection, caller)
    ensures forall c :: c in s && OtherParty(c, caller) in users ==> c in AcceptedRows(r)
    // each row with an existing other party is kept as often as it occurs, the others dropped
    ensures forall c :: multiset(AcceptedRows(r))[c] == if OtherParty(c, caller) in users then multiset(s)[c] else 0
  {
    if s == [] then []
    else
      assert s == [s[0]] + s[1..];
      var rest := JoinOther(s[1..], users, caller);
      var other := OtherParty(s[0], caller);
      if other in users then
        var e := AcceptedConnection(s[0], ProfileOf(users[other]));
        AcceptedRowsCons(e, rest);
        [e] + rest
      else
        rest
  }

  /** Dropping the rows with a missing party keeps the newest-first order. */
  lemma {:induction false} JoinOtherKeepsOrder(s: seq<Connection>, users: map<UserId, UserRow>, caller: UserId)
    requires NewestFirst(s)
    ensures NewestFirst(AcceptedRows(JoinOther(s, users, caller)))
  {
    if s != [] {
      NewestFirstTail(s);
      JoinOtherKeepsOrder(s[1..], users, caller);
      var rest := JoinOther(s[1..], users, caller);
      var other := OtherParty(s[0], caller);
      if other in users {
        var e := AcceptedConnection(s[0], ProfileOf(users[other]));
        assert JoinOther(s, users, caller) == [e] + rest;
        AcceptedRowsCons(e, rest);
        JoinedRowsAtMost(s[1..], rest, s[0].createdAt);
        NewestFirstCons(s[0], AcceptedRows(rest));
      } else {
        assert JoinOther(s, users, caller) == rest;
      }
    }
  }

  /** The joined rows are rows of `s`, so a bound on `s` bounds them. */
  lemma JoinedRowsAtMost(s: seq<Connection>, joined: seq<AcceptedConnection>, t: Timestamp)
    requires forall e :: e in joined ==> e.connection in s
    requires AllAtMost(s, t)
    ensures AllAtMost(AcceptedRows(joined), t)
  {
    forall c | c in AcceptedRows(joined) ensures TextLe(c.createdAt, t) {
      var k :| 0 <= k < |joined| && AcceptedRows(joined)[k] == c;
      assert joined[k] in joined;
    }
  }

  /**
   * GET /api/connections: the caller's accepted connections, newest first, each with the
   * other party's profile; rows whose other party is missing from `users` are left out.
   */
  function ListAccepted(rows: seq<Connection>, users: map<UserId, UserRow>, caller: UserId)
    : (r: AcceptedList)
    ensures r.count == |r.connections|
    ensures forall e :: e in r.connections ==>
      && e.connection in rows
      && AcceptedWith(e.connection, caller)
      && OtherParty(e.connection, caller) in users
      && e.connectedUser == ProfileOf(users[OtherParty(e.connection, caller)])
    // with the table keyed by primary key, the profile is the other party's own
    ensures KeyedById(users) ==> forall e :: e in r.connections ==> e.connectedUser.id == OtherParty(e.connection, caller)
    ensures forall c :: c in rows && AcceptedWith(c, caller) && OtherParty(c, caller) in users ==>
      c in AcceptedRows(r.connections)
    ensures forall c ::
      multiset(AcceptedRows(r.connections))[c] ==
      if AcceptedWith(c, caller) && OtherParty(c, caller) in users then multiset(rows)[c] else 0
    ensures NewestFirst(AcceptedRows(r.connections))
  {
    var selected := SelectAccepted(rows, caller);
    var sorted := SortNewestFirst(selected);
    forall c ensures c in sorted <==> c in selected {
      assert c in sorted <==> c in multiset(sorted);
    }
    var joined := JoinOther(sorted, users, caller);
    JoinOtherKeepsOrder(sorted, users, caller);
    AcceptedList(joined, |joined|)
  }

  // ----- GET /api/connections/requests -----

  /** The row is a pending request the caller received. */
  predicate PendingFor(c: Connection, caller: UserId) {
    c.connectedUserId == caller && c.status == Pending
  }

  /** `where connected_user_id = caller and status = 'pending'`, in table order. */
  function SelectPending(rows: seq<Connection>, caller: UserId): (r: seq<Connection>)
    ensures forall c :: c in r <==> c in rows && PendingFor(c, caller)
    ensures forall c :: multiset(r)[c] == if PendingFor(c, caller) then multiset(rows)[c] else 0
  {
    if rows == [] then []
    else
      assert rows == [rows[0]] + rows[1..];
      var rest := SelectPending(rows[1..], caller);
      if PendingFor(rows[0], caller) then [rows[0]] + rest else rest
  }

  /** One element of the answer: the row's own fields and the requester's profile, if found. */
  datatype PendingRequest = PendingRequest(connection: Connection, requester: Option<PublicProfile>)

  /** The answer `{ requests, count }`. */
  datatype RequestList = RequestList(requests: seq<PendingRequest>, count: nat)

  /** The rows under a request list; the accepted list has its own projection, `AcceptedRows`, over its own element type. */
  function RequestRows(es: seq<PendingRequest>): (r: seq<Connection>)
    ensures |r| == |es| && forall i :: 0 <= i < |es| ==> r[i] == es[i].connection
  {
    seq(|es|, i requires 0 <= i < |es| => es[i].connection)
  }

  /** The left join on the requester: every row kept, with `None` when the requester is not in `users`. */
  function Requester(users: map<UserId, UserRow>, c: Connection): Option<PublicProfile> {
    if c.userId in users then Some(ProfileOf(users[c.userId])) else None
  }

  /** Each row paired with its requester, in the same order. */
  function JoinRequester(s: seq<Connection>, users: map<UserId, UserRow>): (r: seq<PendingRequest>)
    ensures RequestRows(r) == s
    ensures forall e :: e in r ==> e.connection in s && e.requester == Requester(users, e.connection)
    ensures KeyedById(users) ==> forall e :: e in r && e.requester.Some? ==> e.requester.value.id == e.connection.userId
  {
    var r := seq(|s|, i requires 0 <= i < |s| => PendingRequest(s[i], Requester(users, s[i])));
    assert RequestRows(r) == s;
    r
  }

  /**
   * GET /api/connections/requests: exactly the pending rows the caller received, newest first,
   * each with its requester's profile when the requester exists.
   */
  function ListPendingReceived(rows: seq<Connection>, users: map<UserId, UserRow>, caller: UserId)
    : (r: RequestList)
    ensures r.count == |r.requests|
    ensures multiset(RequestRows(r.requests)) == multiset(SelectPending(rows, caller))
    ensures forall e :: e in r.requests ==>
      && e.connection in rows
      && PendingFor(e.connection, caller)
      && (e.requester.Some? <==> e.connection.userId in users)
      && (e.requester.Some? ==> e.requester.value == ProfileOf(users[e.connection.userId]))
    // with the table keyed by primary key, the profile is the requester's own
    ensures KeyedById(users) ==> forall e :: e in r.requests && e.requester.Some? ==> e.requester.value.id == e.connection.userId
    ensures NewestFirst(RequestRows(r.requests))
  {
    var selected := SelectPending(rows, caller);
    var sorted := SortNewestFirst(selected);
    assert forall c :: c in sorted ==> c in selected by {
      forall c | c in sorted ensures c in selected {
        assert c in multiset(sorted);
      }
    }
    var joined := JoinRequester(sorted, users);
    RequestList(joined, |joined|)
  }
}
