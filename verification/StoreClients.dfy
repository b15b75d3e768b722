/** The clients the two sweeps call, each call with the reply its environment chose. */
module StoreClients {
  import opened Wrappers
  import opened Stores

  class ZitadelDirectory {
    var rows: seq<Row>

    constructor (rows: seq<Row>)
      ensures this.rows == rows
    {
      this.rows := rows;
    }

    /** One page: the humans on it and the raw number of rows, which is what callers page on. */
    method ListHumanUsers(offset: nat) returns (users: seq<Row>, raw: nat)
      ensures raw == |RawPage(rows, offset)| && users == Humans(RawPage(rows, offset))
    {
      var page := RawPage(rows, offset);
      users := [];
      for i := 0 to |page|
        invariant users == Humans(page[..i])
      {
        HumansConcat(page[..i], [page[i]]);
        HumansCons(page[i], []);
        assert page[..i + 1] == page[..i] + [page[i]];
        if page[i].human {
          users := users + [page[i]];
        }
      }
      assert page[..|page|] == page;
      raw := |page|;
    }

    /** What others delete between two calls. */
    method Lose(gone: set<Id>)
      modifies this
      ensures rows == Without(old(rows), gone)
    {
      rows := Without(rows, gone);
    }

    /** Idempotent: an account that is already gone is a success. */
    method DeleteUser(id: Id, reply: Outcome) returns (ok: bool)
      modifies this
      ensures rows == if reply.TookEffect() then Without(old(rows), {id}) else old(rows)
      ensures ok == reply.ReportedOk()
    {
      if reply.TookEffect() {
        rows := Without(rows, {id});
      }
      ok := reply.ReportedOk();
    }
  }

  class MiloStore {
    var users: map<Id, User>

    constructor (users: map<Id, User>)
      ensures this.users == users
    {
      this.users := users;
    }

    /** NotFound counts as success, as the caller treats it. */
    method Delete(id: Id, reply: Outcome) returns (ok: bool)
      modifies this
      ensures users == if reply.TookEffect() then ApiDelete(old(users), id) else old(users)
      ensures ok == reply.ReportedOk()
    {
      if reply.TookEffect() {
        users := ApiDelete(users, id);
      }
      ok := reply.ReportedOk();
    }

    /** Create: an object of that name already there is reported as such and left alone. */
    method Create(id: Id, user: User, reply: Outcome) returns (created: bool, ok: bool)
      modifies this
      ensures users == if id !in old(users) && reply.TookEffect() then old(users)[id := user] else old(users)
      ensures created == (id !in old(users) && reply.ReportedOk())
      ensures ok == (id in old(users) || reply.ReportedOk())
    {
      if id in users {
        return false, true;
      }
      if reply.TookEffect() {
        users := users[id := user];
      }
      created, ok := reply.ReportedOk(), reply.ReportedOk();
    }

    /** The verification write when nobody else writes: read, compare, replace the one field. */
    method SetVerification(id: Id, verified: bool, reply: Outcome) returns (changed: bool, ok: bool)
      modifies this
      ensures users == if id in old(users) && NeedsUpdate(old(users)[id], verified) && reply.TookEffect()
                       then old(users)[id := old(users)[id].(verification := Desired(verified))] else old(users)
      ensures changed == (id in old(users) && NeedsUpdate(old(users)[id], verified) && reply.ReportedOk())
      ensures ok == (id in old(users) && (NeedsUpdate(old(users)[id], verified) ==> reply.ReportedOk()))
      ensures ok ==> id in users && (users[id].verification.Verified? <==> verified)
      ensures ok ==> id in users && (users[id].verification.Unverified? <==> !verified)
    {
      if id !in users {
        return false, false;
      }
      if !NeedsUpdate(users[id], verified) {
        return false, true;
      }
      if reply.TookEffect() {
        users := users[id := users[id].(verification := Desired(verified))];
      }
      changed, ok := reply.ReportedOk(), reply.ReportedOk();
    }
  }
}
