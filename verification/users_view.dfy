/** The users page: the user list filtered by a search and by status and
    role selectors, the status counts, and deleting a user. */
module UsersView {
  import opened Seqs
  import Text

  datatype Status = Active | Inactive | Suspended

  /** A role; `caption` is the source's `label`. */
  datatype Role = Role(id: string, name: string, caption: string)

  datatype User = User(id: string, name: string, email: string, role: Role, status: Status, createdAt: string)

  datatype UserStats = UserStats(total: nat, active: nat, inactive: nat, suspended: nat)

  /** The status as the selector names it. */
  function StatusName(s: Status): string {
    match s
    case Active => "active"
    case Inactive => "inactive"
    case Suspended => "suspended"
  }

  const All := "all"

  /** The three conditions of `filteredUsers`. */
  predicate UserShown(u: User, search: string, statusFilter: string, roleFilter: string) {
    && (Text.IncludesIgnoreCase(u.name, search) || Text.IncludesIgnoreCase(u.email, search))
    && (statusFilter == All || StatusName(u.status) == statusFilter)
    && (roleFilter == All || u.role.id == roleFilter)
  }

  function Shown(search: string, statusFilter: string, roleFilter: string): User -> bool {
    (u: User) => UserShown(u, search, statusFilter, roleFilter)
  }

  /** `filteredUsers`: the users meeting all three conditions, in order. */
  function FilterUsers(users: seq<User>, search: string, statusFilter: string, roleFilter: string): (r: seq<User>)
    ensures forall u :: u in r <==> u in users && UserShown(u, search, statusFilter, roleFilter)
  {
    Filter(users, Shown(search, statusFilter, roleFilter))
  }

  /** No search and both selectors on `all`: every user, in order. */
  lemma NoFilterShowsAll(users: seq<User>)
    ensures FilterUsers(users, "", All, All) == users
  {
    forall k | 0 <= k < |users| ensures Shown("", All, All)(users[k]) {
      Text.IncludesIgnoreCaseEmpty(users[k].name);
    }
    FilterKeepsAll(users, Shown("", All, All));
  }

  /** Narrowing the status selector only removes users: the result is the
      unfiltered-by-status result filtered again by status. */
  lemma StatusFilterNarrows(users: seq<User>, search: string, status: Status, roleFilter: string)
    ensures forall u :: u in FilterUsers(users, search, StatusName(status), roleFilter) <==>
      u in FilterUsers(users, search, All, roleFilter) && u.status == status
  {
    forall u: User ensures StatusName(u.status) == StatusName(status) <==> u.status == status {
    }
  }

  function HasStatus(s: Status): User -> bool {
    (u: User) => u.status == s
  }

  /** `stats`. */
  function Stats(users: seq<User>): (r: UserStats)
    ensures r.total == |users|
    ensures r.active == Count(users, HasStatus(Active)) && r.inactive == Count(users, HasStatus(Inactive))
    ensures r.suspended == Count(users, HasStatus(Suspended))
  {
    UserStats(|users|, Count(users, HasStatus(Active)), Count(users, HasStatus(Inactive)), Count(users, HasStatus(Suspended)))
  }

  /** Every user has one of the three statuses, so the counts add up. */
  lemma StatsAddUp(users: seq<User>)
    ensures Stats(users).active + Stats(users).inactive + Stats(users).suspended == Stats(users).total
  {
    CountThreeWay(users, HasStatus(Active), HasStatus(Inactive), HasStatus(Suspended));
  }

  function NotUser(id: string): User -> bool {
    (u: User) => u.id != id
  }

  /** `handleDelete`: the list without the users with the id. */
  function DeleteUser(users: seq<User>, id: string): (r: seq<User>)
    ensures forall u :: u in r <==> u in users && u.id != id
  {
    Filter(users, NotUser(id))
  }

  function UserId(u: User): string { u.id }

  /** With unique ids, deleting a listed user keeps every other user, in order. */
  lemma DeleteRemovesExactlyOne(users: seq<User>, k: nat)
    requires k < |users| && UniqueBy(users, UserId)
    ensures DeleteUser(users, users[k].id) == users[..k] + users[k + 1..]
  {
    assert forall i :: 0 <= i < |users| && i != k ==> UserId(users[i]) != UserId(users[k]);
    FilterRemovesOne(users, NotUser(users[k].id), k);
  }
}
