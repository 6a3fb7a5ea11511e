/**
 * The admin user list: one page of twenty users at a time, each unverified user with a
 * Verify action, and a pager once there are more than twenty users.
 */
module Users {
  import opened Wrappers

  /** A user as the list needs it. */
  datatype User = User(id: string, isVerified: bool)

  /** One page of users and the total count. */
  datatype UsersData = UsersData(users: seq<User>, total: int)

  datatype Request = GetUsers(page: int, limit: int) | PatchVerify(id: string)

  const PageSize: int := 20

  /** `prev.map(u => u._id === id ? { ...u, isVerified: true } : u)`. */
  function MarkVerified(users: seq<User>, id: string): (r: seq<User>)
    ensures |r| == |users|
    ensures forall k :: 0 <= k < |users| ==> r[k].id == users[k].id
    ensures forall k :: 0 <= k < |users| ==> r[k].isVerified == (users[k].isVerified || users[k].id == id)
  {
    seq(|users|, k requires 0 <= k < |users| => if users[k].id == id then users[k].(isVerified := true) else users[k])
  }

  /** Verifying is idempotent, and verifying two users commutes. */
  lemma MarkVerifiedCommutes(users: seq<User>, a: string, b: string)
    ensures MarkVerified(MarkVerified(users, a), a) == MarkVerified(users, a)
    ensures MarkVerified(MarkVerified(users, a), b) == MarkVerified(MarkVerified(users, b), a)
  {
  }

  /** The page's state. */
  class UsersPage {
    var users: seq<User>
    var total: int
    var page: int
    var loading: bool
    var requests: seq<Request>

    /** The page number is at least 1. */
    predicate Valid()
      reads this
    {
      page >= 1
    }

    /** The page opened on page 1, which is being fetched. */
    constructor ()
      ensures Valid()
      ensures users == [] && total == 0 && page == 1 && loading && requests == [GetUsers(1, PageSize)]
    {
      users := [];
      total := 0;
      page := 1;
      loading := true;
      requests := [GetUsers(1, PageSize)];
    }

    /** The pager is shown only for more than one page's worth of users. */
    predicate PagerShown()
      reads this
    {
      total > PageSize
    }

    /** Prev's `disabled`. */
    predicate PrevDisabled()
      reads this
    {
      page <= 1
    }

    /** Next's `disabled`: this page reaches the last user. */
    predicate NextDisabled()
      reads this
    {
      page * PageSize >= total
    }

    /** A page fetch settled: its users and total, or no users after a failure; loading ends. */
    method Loaded(response: Outcome<UsersData>)
      requires Valid()
      modifies this
      ensures Valid()
      ensures response.Ok? ==> users == response.data.users && total == response.data.total
      ensures response.Failed? ==> users == [] && total == old(total)
      ensures !loading && page == old(page) && requests == old(requests)
    {
      if response.Ok? {
        users := response.data.users;
        total := response.data.total;
      } else {
        users := [];
      }
      loading := false;
    }

    /** Prev: the page goes back one, never below 1, and that page is fetched. */
    method Prev()
      requires Valid() && PagerShown() && !PrevDisabled()
      modifies this
      ensures Valid()
      ensures page == (if old(page) - 1 > 1 then old(page) - 1 else 1) && page == old(page) - 1
      ensures requests == old(requests) + [GetUsers(page, PageSize)]
      ensures users == old(users) && total == old(total) && loading == old(loading)
    {
      page := if page - 1 > 1 then page - 1 else 1;
      requests := requests + [GetUsers(page, PageSize)];
    }

    /** Next: the page moves on one, and the new page starts at a user that exists. */
    method Next()
      requires Valid() && PagerShown() && !NextDisabled()
      modifies this
      ensures Valid()
      ensures page == old(page) + 1 && (page - 1) * PageSize < total
      ensures requests == old(requests) + [GetUsers(page, PageSize)]
      ensures users == old(users) && total == old(total) && loading == old(loading)
    {
      page := page + 1;
      requests := requests + [GetUsers(page, PageSize)];
    }

    /** Verify on row `i`, offered only for an unverified user: only a success marks that user verified. */
    method Verify(i: nat, outcome: Outcome<()>)
      requires Valid() && !loading && i < |users| && !users[i].isVerified
      modifies this
      ensures Valid()
      ensures requests == old(requests) + [PatchVerify(old(users)[i].id)]
      ensures outcome.Ok? ==> users == MarkVerified(old(users), old(users)[i].id) && users[i].isVerified
      ensures outcome.Failed? ==> users == old(users)
      ensures total == old(total) && page == old(page) && loading == old(loading)
    {
      var id := users[i].id;
      requests := requests + [PatchVerify(id)];
      if outcome.Ok? {
        users := MarkVerified(users, id);
      }
    }
  }
}
