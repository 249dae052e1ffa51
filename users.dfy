/**
 * The user and profile records the views and serializers of backend/users
 * read and write.  backend/users/models.py is not part of this model: the
 * fields below are the ones the views and serializers use, and a new user's
 * defaults (status 'active', is_active true, user_type 'buyer') are taken as
 * the registration serializer describes them, and `create_user` leaves
 * is_staff false.
 */
module Users {

  /** The two fields the account state machine works on. */
  datatype Account = Account(status: string, isActive: bool)

  /** The status values an admin may set. */
  const Statuses: seq<string> := ["active", "inactive", "suspended"]

  /** The state every soft delete leaves behind. */
  const Deactivated := Account("inactive", false)

  /** `is_active` agrees with `status == 'active'`. */
  predicate Consistent(a: Account)
  {
    a.isActive <==> a.status == "active"
  }

  class Profile {
    const owner: User
    /** avatar, bio, address, city, country, postal_code, by name. */
    var attrs: map<string, string>

    /** `Profile.objects.create(user=owner)`: a profile with no attribute set. */
    constructor (owner: User)
      ensures this.owner == owner && attrs == map[]
    {
      this.owner := owner;
      attrs := map[];
    }
  }

  class User {
    const userId: int
    const createdAt: int
    var username: string
    var email: string
    var fullName: string
    var phone: string
    var userType: string
    var status: string
    var isActive: bool
    /** `is_staff`, which the admin views' `IsAdminUser` permission reads. */
    var isStaff: bool
    /** The reverse one-to-one accessor `user.profile`; null while no profile exists. */
    var profile: Profile?

    constructor (userId: int, createdAt: int, username: string, email: string,
                 fullName: string, phone: string, userType: string)
      ensures this.userId == userId && this.createdAt == createdAt
      ensures this.username == username && this.email == email
      ensures this.fullName == fullName && this.phone == phone && this.userType == userType
      ensures status == "active" && isActive && !isStaff && profile == null
      ensures Consistent(State())
    {
      this.userId, this.createdAt := userId, createdAt;
      this.username, this.email := username, email;
      this.fullName, this.phone, this.userType := fullName, phone, userType;
      status, isActive, isStaff := "active", true, false;
      profile := null;
    }

    /** The user's (status, is_active). */
    function State(): Account
      reads this
    {
      Account(status, isActive)
    }
  }
}
