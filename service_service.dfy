/** `ServicesService`: looking a service up by name, and granting a user a
    service at most once. */
module ServicesService {
  import opened Wrappers
  import opened Strings
  import opened Lists
  import opened Store

  /** The `where` of `findByNames`: not soft-deleted, and the name contains
      the query, ignoring case. */
  predicate NameMatches(s: Service, name: string) {
    s.deletedAt.None? && Contains(Lower(s.name), Lower(name))
  }

  /** `findByNames`: the first live service whose name contains `name`
      case-insensitively, or `None`. */
  function FindByNames(services: seq<Service>, name: string): (r: Option<Service>)
    ensures r.None? <==> forall i :: 0 <= i < |services| ==> !NameMatches(services[i], name)
    ensures r.Some? ==> r.value.deletedAt.None? && Contains(Lower(r.value.name), Lower(name))
    ensures r.Some? ==> exists k :: 0 <= k < |services| && services[k] == r.value &&
                          forall j :: 0 <= j < k ==> !NameMatches(services[j], name)
  {
    Find(services, s => NameMatches(s, name))
  }

  /** A live service matches a query equal to its own name. */
  lemma {:induction false} OwnNameMatches(s: Service)
    requires s.deletedAt.None?
    ensures NameMatches(s, s.name)
  {
    assert Lower(s.name) <= Lower(s.name);
  }

  /** The match is by substring and ignores case: the query "BL" selects a
      service named "blog". */
  lemma PartialQuerySelectsService(blog: Service)
    requires blog.name == "blog" && blog.deletedAt.None?
    ensures FindByNames([blog], "BL") == Some(blog)
  {
    assert Lower("BL") == "bl";
    assert Lower("blog") == "blog";
    assert "bl" <= "blog";
  }

  /** A soft-deleted service is never returned. */
  lemma DeletedServiceNeverFound(services: seq<Service>, name: string)
    ensures FindByNames(services, name).Some? ==> FindByNames(services, name).value.deletedAt.None?
  {
  }

  const CreateUserServiceError := "Failed to create user service. Please try again later."

  predicate IsGrantOf(g: UserServiceGrant, userId: string, serviceId: string) {
    g.userId == userId && g.serviceId == serviceId
  }

  /** The number of grant rows for `(userId, serviceId)`; soft-deleted rows count. */
  function GrantCount(t: seq<UserServiceGrant>, userId: string, serviceId: string): nat {
    Count(t, g => IsGrantOf(g, userId, serviceId))
  }

  /** The grant table after a successful `createUserService`. The existence
      check is `findUnique` on the pair, which ignores `deletedAt`. */
  function Granted(t: seq<UserServiceGrant>, userId: string, serviceId: string): seq<UserServiceGrant> {
    if GrantCount(t, userId, serviceId) > 0 then t
    else t + [UserServiceGrant(userId, serviceId, None)]
  }

  /** A grant call keeps every existing row and leaves exactly one row for the
      pair when there was none, and the same rows otherwise. */
  lemma {:induction false} GrantedLeavesOneRecord(t: seq<UserServiceGrant>, userId: string, serviceId: string)
    ensures Granted(t, userId, serviceId)[..|t|] == t
    ensures GrantCount(t, userId, serviceId) == 0 ==>
              GrantCount(Granted(t, userId, serviceId), userId, serviceId) == 1 &&
              |Granted(t, userId, serviceId)| == |t| + 1
    ensures GrantCount(t, userId, serviceId) > 0 ==> Granted(t, userId, serviceId) == t
  {
    if GrantCount(t, userId, serviceId) == 0 {
      var g := UserServiceGrant(userId, serviceId, None);
      CountAppend(t, g, g' => IsGrantOf(g', userId, serviceId));
      assert (t + [g])[..|t|] == t;
    }
  }

  /** Granting twice is the same as granting once: two sequential calls leave
      exactly one record where there was none. */
  lemma {:induction false} GrantTwiceIsGrantOnce(t: seq<UserServiceGrant>, userId: string, serviceId: string)
    ensures Granted(Granted(t, userId, serviceId), userId, serviceId) == Granted(t, userId, serviceId)
    ensures GrantCount(t, userId, serviceId) == 0 ==>
              GrantCount(Granted(Granted(t, userId, serviceId), userId, serviceId), userId, serviceId) == 1
  {
    GrantedLeavesOneRecord(t, userId, serviceId);
    GrantedLeavesOneRecord(Granted(t, userId, serviceId), userId, serviceId);
  }

  /** `createUserService`: inserts the grant unless a row for the pair already
      exists. `dbFault` stands for any failure of the database calls, which
      surfaces as one fixed message with no write. */
  method CreateUserService(db: Database, userId: string, serviceId: string, dbFault: bool)
    returns (r: Outcome<string>)
    modifies db
    ensures dbFault ==> r == Fail(CreateUserServiceError) && db.userServices == old(db.userServices)
    ensures !dbFault ==> r == Pass && db.userServices == Granted(old(db.userServices), userId, serviceId)
    ensures db.users == old(db.users) && db.accounts == old(db.accounts) && db.services == old(db.services)
    ensures db.auditLogs == old(db.auditLogs) && db.hookLogs == old(db.hookLogs)
  {
    if dbFault {
      return Fail(CreateUserServiceError);
    }
    if GrantCount(db.userServices, userId, serviceId) > 0 {
      return Pass;
    }
    db.userServices := db.userServices + [UserServiceGrant(userId, serviceId, None)];
    return Pass;
  }
}
