/**
 * The `connections` table, with the ids of the `users` table beside it, as the three
 * POST handlers change it. Each handler runs as one atomic step.
 */
module ConnectionStore {
  import opened Wrappers
  import opened Schema
  import opened ConnectionRules

  class ConnectionTable {
    /** The rows in table (rowid) order. */
    var rows: seq<Connection>
    /** The id the next inserted row gets (the AUTOINCREMENT counter). */
    var nextId: int
    /** The ids present in `users`. */
    var userIds: set<UserId>

    ghost predicate Valid()
      reads this
    {
      ValidRows(rows, nextId)
    }

    constructor (userIds: set<UserId>, rows: seq<Connection>, nextId: int)
      requires ValidRows(rows, nextId)
      ensures Valid()
      ensures this.userIds == userIds && this.rows == rows && this.nextId == nextId
    {
      this.userIds := userIds;
      this.rows := rows;
      this.nextId := nextId;
    }

    /**
     * POST /api/connections/request: the guard chain, then the insert of a pending row from
     * the caller to the target. On every error the table is left as it was.
     */
    method Request(caller: UserId, connectedUserId: IdField, now: Timestamp)
      returns (r: Result<Connection, ConnectionError>)
      requires Valid()
      modifies this
      ensures Valid() && userIds == old(userIds)
      ensures r == RequestResult(old(rows), old(userIds), old(nextId), caller, connectedUserId, now)
      ensures rows == AfterRequest(old(rows), r)
      ensures nextId == if r.Success? then old(nextId) + 1 else old(nextId)
    {
      if connectedUserId.Falsy? {
        return Failure(MissingConnectedUserId);
      }
      if connectedUserId.parsed.None? {
        return Failure(InvalidConnectedUserId);
      }
      var target := connectedUserId.parsed.value;
      if caller == target {
        return Failure(SelfConnectionNotAllowed);
      }
      if target !in userIds {
        return Failure(UserNotFound);
      }
      // the first row of the pair, in either direction
      var existing := FirstBetween(rows, caller, target);
      if existing.Some? {
        var connection := rows[existing.value];
        if connection.status == Pending {
          return Failure(ConnectionPending);
        }
        if connection.status == Accepted {
          return Failure(AlreadyConnected);
        }
        // a rejected row lets a new request through
      }
      var row := Connection(nextId, caller, target, Pending, now);
      RequestKeepsValid(rows, userIds, nextId, caller, connectedUserId, now);
      rows := rows + [row];
      nextId := nextId + 1;
      r := Success(row);
    }

    /**
     * POST /api/connections/accept: only the receiver of a pending row may accept it; the
     * update sets that row's status and the updated row is returned.
     */
    method Accept(caller: UserId, connectionId: IdField) returns (r: Result<Connection, ConnectionError>)
      requires Valid()
      modifies this
      ensures Valid() && userIds == old(userIds) && nextId == old(nextId)
      ensures r == ReviewResult(old(rows), caller, connectionId, Decision.Accept)
      ensures rows == AfterReview(old(rows), r)
    {
      if connectionId.Falsy? {
        return Failure(MissingConnectionId);
      }
      if connectionId.parsed.None? {
        return Failure(InvalidConnectionId);
      }
      var id := connectionId.parsed.value;
      var found := FindById(rows, id);
      if found.None? {
        return Failure(ConnectionNotFound);
      }
      var connection := rows[found.value];
      if connection.connectedUserId != caller {
        return Failure(NotAuthorized);
      }
      if connection.status != Pending {
        return Failure(ConnectionNotPending);
      }
      ReviewKeepsValid(rows, nextId, caller, connectionId, Decision.Accept);
      rows := SetStatus(rows, id, Accepted);
      r := Success(rows[found.value]);
    }

    /**
     * POST /api/connections/reject: the same guards as accepting, with their own codes, and
     * the status set to rejected.
     */
    method Reject(caller: UserId, connectionId: IdField) returns (r: Result<Connection, ConnectionError>)
      requires Valid()
      modifies this
      ensures Valid() && userIds == old(userIds) && nextId == old(nextId)
      ensures r == ReviewResult(old(rows), caller, connectionId, Decision.Reject)
      ensures rows == AfterReview(old(rows), r)
    {
      if connectionId.Falsy? {
        return Failure(MissingConnectionId);
      }
      if connectionId.parsed.None? {
        return Failure(InvalidConnectionId);
      }
      var id := connectionId.parsed.value;
      var found := FindById(rows, id);
      if found.None? {
        return Failure(ConnectionNotFound);
      }
      var existingConnection := rows[found.value];
      if existingConnection.connectedUserId != caller {
        return Failure(Forbidden);
      }
      if existingConnection.status != Pending {
        return Failure(InvalidStatus);
      }
      ReviewKeepsValid(rows, nextId, caller, connectionId, Decision.Reject);
      rows := SetStatus(rows, id, Rejected);
      r := Success(rows[found.value]);
    }
  }
}
