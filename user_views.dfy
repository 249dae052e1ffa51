/**
 * The account rules of backend/users/views.py: the admin status update, the
 * admin and self soft deletes, the status gates of login, and the admin's
 * user list.
 *
 * Each view's effect on the (status, is_active) pair is a pure transition;
 * the view methods apply it to a `Users.User` in place and the lemmas speak
 * about sequences of transitions.  Responses are reduced to their HTTP status
 * codes.
 */
module UserViews {
  import opened Common
  import opened Users
  import StableSort

  /** A response code and the target account afterwards. */
  datatype Outcome = Outcome(code: int, account: Account)

  // ------------------------------------------------------- status changes

  /** UserStatusUpdateView.post on an existing user; `bySelf` when the target is the requesting admin. */
  function SetStatus(acct: Account, bySelf: bool, newStatus: Option<string>): Outcome
  {
    if newStatus.None? || newStatus.value !in Statuses then Outcome(400, acct)
    else if bySelf && newStatus.value != "active" then Outcome(400, acct)
    else Outcome(200, Account(newStatus.value, newStatus.value == "active"))
  }

  /** UserManageView.destroy on an existing user: no self delete, else a soft delete. */
  function AdminDestroy(acct: Account, bySelf: bool): Outcome
  {
    if bySelf then Outcome(400, acct) else Outcome(200, Deactivated)
  }

  /** DeleteAccountView.delete: the requesting user always soft-deletes itself. */
  function DeleteOwn(acct: Account): Outcome
  {
    Outcome(200, Deactivated)
  }

  /** A status update succeeds iff the status is one of the three and an admin does not demote itself; otherwise nothing changes. */
  lemma SetStatusSpec(acct: Account, bySelf: bool, newStatus: Option<string>)
    ensures var o := SetStatus(acct, bySelf, newStatus);
      && (o.code == 200 <==> newStatus.Some? && newStatus.value in Statuses && (!bySelf || newStatus.value == "active"))
      && (o.code != 200 ==> o.code == 400 && o.account == acct)
      && (o.code == 200 ==> o.account.status == newStatus.value && Consistent(o.account))
  {
  }

  /** An admin delete succeeds iff it targets someone else, and then deactivates; a self delete always deactivates. */
  lemma DeleteSpec(acct: Account, bySelf: bool)
    ensures var o := AdminDestroy(acct, bySelf);
      && (o.code == 200 <==> !bySelf)
      && (o.code == 200 ==> o.account == Deactivated && Consistent(o.account))
      && (o.code != 200 ==> o.code == 400 && o.account == acct)
    ensures DeleteOwn(acct).code == 200 && DeleteOwn(acct).account == Deactivated
  {
  }

  /** One of the three account-changing requests, once past its view's permission check (a refused one changes nothing). */
  datatype Action =
    | StatusUpdate(bySelf: bool, newStatus: Option<string>)
    | AdminDelete(bySelf: bool)
    | SelfDelete

  function Apply(acct: Account, action: Action): Outcome
  {
    match action
    case StatusUpdate(bySelf, s) => SetStatus(acct, bySelf, s)
    case AdminDelete(bySelf) => AdminDestroy(acct, bySelf)
    case SelfDelete => DeleteOwn(acct)
  }

  /** The account after a series of requests. */
  function Run(acct: Account, actions: seq<Action>): Account
    decreases |actions|
  {
    if actions == [] then acct else Run(Apply(acct, actions[0]).account, actions[1..])
  }

  /** No request breaks `is_active == (status == 'active')`. */
  lemma {:induction false} RunKeepsConsistent(acct: Account, actions: seq<Action>)
    requires Consistent(acct)
    ensures Consistent(Run(acct, actions))
    decreases |actions|
  {
    if actions != [] {
      var next := Apply(acct, actions[0]);
      if actions[0].StatusUpdate? {
        SetStatusSpec(acct, actions[0].bySelf, actions[0].newStatus);
      }
      RunKeepsConsistent(next.account, actions[1..]);
    }
  }

  /** Admin requests an active admin makes about its own account leave it active. */
  predicate AdminOnSelf(action: Action)
  {
    (action.StatusUpdate? && action.bySelf) || (action.AdminDelete? && action.bySelf)
  }

  lemma {:induction false} AdminCannotLockItselfOut(actions: seq<Action>)
    requires forall i :: 0 <= i < |actions| ==> AdminOnSelf(actions[i])
    ensures Run(Account("active", true), actions) == Account("active", true)
    decreases |actions|
  {
    if actions != [] {
      assert AdminOnSelf(actions[0]);
      assert Apply(Account("active", true), actions[0]).account == Account("active", true);
      AdminCannotLockItselfOut(actions[1..]);
    }
  }

  // ---------------------------------------------------------------- login

  /**
   * The gates of LoginView.post, in order: invalid input 400, failed
   * authentication 401, `not is_active` 403, `status != 'active'` 403, else
   * tokens are issued (200).  `authenticated` is what `authenticate` returned.
   */
  function LoginCode(inputValid: bool, authenticated: Option<Account>): int
  {
    if !inputValid then 400
    else if authenticated.None? then 401
    else if !authenticated.value.isActive then 403
    else if authenticated.value.status != "active" then 403
    else 200
  }

  /** Only an authenticated user that is active with status 'active' reaches token issuance. */
  lemma LoginSpec(inputValid: bool, authenticated: Option<Account>)
    ensures LoginCode(inputValid, authenticated) == 200 <==>
      inputValid && authenticated == Some(Account("active", true))
    ensures !inputValid ==> LoginCode(inputValid, authenticated) == 400
    ensures inputValid && authenticated.None? ==> LoginCode(inputValid, authenticated) == 401
    ensures inputValid && authenticated.Some? && authenticated != Some(Account("active", true))
      ==> LoginCode(inputValid, authenticated) == 403
  {
  }

  /**
   * From a consistent account, whatever requests follow, login's second 403
   * (`status != 'active'`) never decides: the `is_active` gate alone tells
   * 200 from 403, and an active account has status 'active'.
   */
  lemma ConsistentAccountsPassStatusGate(acct: Account, actions: seq<Action>)
    requires Consistent(acct)
    ensures var a := Run(acct, actions);
      && LoginCode(true, Some(a)) == (if a.isActive then 200 else 403)
      && (a.isActive ==> a.status == "active")
  {
    RunKeepsConsistent(acct, actions);
  }

  /** After any soft delete, the account can no longer log in. */
  lemma DeletedCannotLogIn(acct: Account, actions: seq<Action>)
    requires actions != [] && (actions[|actions| - 1] == SelfDelete || actions[|actions| - 1] == AdminDelete(false))
    ensures LoginCode(true, Some(Run(acct, actions))) == 403
  {
    RunAppend(acct, actions[..|actions| - 1], [actions[|actions| - 1]]);
    assert actions == actions[..|actions| - 1] + [actions[|actions| - 1]];
  }

  lemma {:induction false} RunAppend(acct: Account, a: seq<Action>, b: seq<Action>)
    ensures Run(acct, a + b) == Run(Run(acct, a), b)
    decreases |a|
  {
    if a == [] {
      assert a + b == b;
    } else {
      assert (a + b)[0] == a[0];
      assert (a + b)[1..] == a[1..] + b;
      RunAppend(Apply(acct, a[0]).account, a[1..], b);
    }
  }

  // ---------------------------------------------------------- view methods

  /**
   * UserStatusUpdateView.post behind `IsAdminUser`: 403 for a requester who
   * is not staff, before the lookup; 404 when no user has the id; else the
   * transition applied to the stored user.
   */
  method UserStatusUpdatePost(target: User?, requester: User, newStatus: Option<string>) returns (code: int)
    modifies target
    ensures !old(requester.isStaff) ==> code == 403
    ensures old(requester.isStaff) && target == null ==> code == 404
    ensures old(requester.isStaff) && target != null ==>
      var o := SetStatus(old(target.State()), target == requester, newStatus);
      code == o.code && target.State() == o.account
    ensures target != null && !old(requester.isStaff) ==> target.State() == old(target.State())
    ensures target != null ==>
      && target.username == old(target.username) && target.email == old(target.email)
      && target.fullName == old(target.fullName) && target.phone == old(target.phone)
      && target.userType == old(target.userType) && target.isStaff == old(target.isStaff)
      && target.profile == old(target.profile)
  {
    if !requester.isStaff {
      return 403;
    }
    if target == null {
      return 404;
    }
    if newStatus.None? || newStatus.value !in Statuses {
      return 400;
    }
    if target == requester && newStatus.value != "active" {
      return 400;
    }
    target.status := newStatus.value;
    target.isActive := newStatus.value == "active";
    code := 200;
  }

  /** UserManageView.destroy behind `IsAdminUser`: 403 for a requester who is not staff, 404 for an unknown id, else `AdminDestroy`. */
  method Destroy(target: User?, requester: User) returns (code: int)
    modifies target
    ensures !old(requester.isStaff) ==> code == 403
    ensures old(requester.isStaff) && target == null ==> code == 404
    ensures old(requester.isStaff) && target != null ==>
      var o := AdminDestroy(old(target.State()), target == requester);
      code == o.code && target.State() == o.account
    ensures target != null && !old(requester.isStaff) ==> target.State() == old(target.State())
    ensures target != null ==>
      && target.username == old(target.username) && target.email == old(target.email)
      && target.fullName == old(target.fullName) && target.phone == old(target.phone)
      && target.userType == old(target.userType) && target.isStaff == old(target.isStaff)
      && target.profile == old(target.profile)
  {
    if !requester.isStaff {
      return 403;
    }
    if target == null {
      return 404;
    }
    if target == requester {
      return 400;
    }
    target.status := "inactive";
    target.isActive := false;
    code := 200;
  }

  /** DeleteAccountView.delete behind `IsAuthenticated`: `user` is the authenticated requester. */
  method DeleteAccount(user: User) returns (code: int)
    modifies user
    ensures code == DeleteOwn(old(user.State())).code && user.State() == DeleteOwn(old(user.State())).account
    ensures user.username == old(user.username) && user.email == old(user.email)
      && user.fullName == old(user.fullName) && user.phone == old(user.phone)
      && user.userType == old(user.userType) && user.isStaff == old(user.isStaff)
      && user.profile == old(user.profile)
  {
    user.status := "inactive";
    user.isActive := false;
    code := 200;
  }

  /** LoginView.post: `user` is what `authenticate` returned (null on failure). */
  method LoginPost(inputValid: bool, user: User?) returns (code: int)
    ensures code == LoginCode(inputValid, if user == null then None else Some(user.State()))
  {
    if !inputValid {
      return 400;
    }
    if user == null {
      return 401;
    }
    if !user.isActive {
      return 403;
    }
    if user.status != "active" {
      return 403;
    }
    code := 200;
  }

  // ------------------------------------------------------------ user list

  /** A row of the user table as the list reads it. */
  datatype UserRow = UserRow(userId: int, username: string, email: string, userType: string,
                             status: string, createdAt: int)

  /** A query parameter is applied only when present and non-empty. */
  predicate Given(param: Option<string>)
  {
    param.Some? && param.value != ""
  }

  /** `field__icontains=search` */
  predicate IContains(field: string, search: string)
  {
    Contains(Lower(field), Lower(search))
  }

  predicate Listed(u: UserRow, userType: Option<string>, status: Option<string>, search: Option<string>)
  {
    && (!Given(userType) || u.userType == userType.value)
    && (!Given(status) || u.status == status.value)
    && (!Given(search) || IContains(u.username, search.value) || IContains(u.email, search.value))
  }

  function Selected(rows: seq<UserRow>, userType: Option<string>, status: Option<string>, search: Option<string>): seq<UserRow>
  {
    if rows == [] then []
    else
      (if Listed(rows[0], userType, status, search) then [rows[0]] else [])
      + Selected(rows[1..], userType, status, search)
  }

  /** `order_by('-created_at')`: newer first. */
  predicate NewerOrSame(a: UserRow, b: UserRow)
  {
    a.createdAt >= b.createdAt
  }

  /**
   * UserListView.get_queryset over a table snapshot.  The database leaves
   * the order of equal timestamps open; the model keeps table order for them.
   */
  function ListUsers(rows: seq<UserRow>, userType: Option<string>, status: Option<string>, search: Option<string>): seq<UserRow>
  {
    StableSort.Sort(Selected(rows, userType, status, search), NewerOrSame)
  }

  /** UserListView.get behind `IsAdminUser`: a requester who is not staff gets 403 and no row. */
  function ListUsersView(requesterIsStaff: bool, rows: seq<UserRow>, userType: Option<string>, status: Option<string>,
                         search: Option<string>): (r: Result<seq<UserRow>, int>)
    ensures r.Err? <==> !requesterIsStaff
    ensures r.Err? ==> r.error == 403
    ensures r.Ok? ==> r.value == ListUsers(rows, userType, status, search)
  {
    if !requesterIsStaff then Err(403) else Ok(ListUsers(rows, userType, status, search))
  }

  lemma {:induction false} SelectedSpec(rows: seq<UserRow>, userType: Option<string>, status: Option<string>, search: Option<string>)
    ensures var r := Selected(rows, userType, status, search);
      && (forall u :: Listed(u, userType, status, search) ==> multiset(r)[u] == multiset(rows)[u])
      && (forall u :: !Listed(u, userType, status, search) ==> multiset(r)[u] == 0)
  {
    if rows != [] {
      SelectedSpec(rows[1..], userType, status, search);
      assert rows == [rows[0]] + rows[1..];
    }
  }

  /** The list holds each matching row as often as the table does, no other row, newest first. */
  lemma ListUsersSpec(rows: seq<UserRow>, userType: Option<string>, status: Option<string>, search: Option<string>)
    ensures var r := ListUsers(rows, userType, status, search);
      && (forall u :: Listed(u, userType, status, search) ==> multiset(r)[u] == multiset(rows)[u])
      && (forall u :: !Listed(u, userType, status, search) ==> u !in r)
      && (forall i, j :: 0 <= i < j < |r| ==> r[i].createdAt >= r[j].createdAt)
  {
    var sel := Selected(rows, userType, status, search);
    var r := ListUsers(rows, userType, status, search);
    SelectedSpec(rows, userType, status, search);
    StableSort.SortSortedPermutation(sel, NewerOrSame);
    forall u | !Listed(u, userType, status, search)
      ensures u !in r
    {
      assert multiset(r)[u] == 0;
    }
    forall i, j | 0 <= i < j < |r|
      ensures r[i].createdAt >= r[j].createdAt
    {
      StableSort.SortedPairwise(r, NewerOrSame, i, j);
    }
  }

  /** With no parameter given, every user is listed. */
  lemma NoParametersListsAll(rows: seq<UserRow>)
    ensures multiset(ListUsers(rows, None, None, None)) == multiset(rows)
  {
    ListUsersSpec(rows, None, None, None);
    var r := ListUsers(rows, None, None, None);
    forall u ensures multiset(r)[u] == multiset(rows)[u] {
      assert Listed(u, None, None, None);
    }
    assert multiset(r) == multiset(rows);
  }
}
