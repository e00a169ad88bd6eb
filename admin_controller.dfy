/** The four handlers of `adminController.js`. Every admin route is gated
    to role `admin`, which each handler states as its precondition. */
module AdminController {
  import opened Common
  import opened Seqs
  import opened Text
  import opened UserModel
  import opened AppointmentModel
  import AppointmentController

  // --------------------------------------------------------------- getAllUsers

  /** An account as `select('-password')` returns it: every field but the
      password hash. */
  datatype PublicUser = PublicUser(
    id: Id,
    name: string,
    email: string,
    role: Role,
    specialization: Option<string>,
    isActive: bool)

  function WithoutPassword(u: User): PublicUser {
    PublicUser(u.id, u.name, u.email, u.role, u.specialization, u.isActive)
  }

  /** The account a public view and a password describe. */
  function WithPassword(p: PublicUser, password: string): User {
    User(p.id, p.name, p.email, password, p.role, p.specialization, p.isActive)
  }

  /** `getAllUsers`: every account, in stored order, with only the password
      dropped: giving each entry back its password restores the account. */
  function GetAllUsers(caller: Caller, users: seq<User>): (r: seq<PublicUser>)
    requires caller.role == Admin
    ensures |r| == |users|
    ensures forall i :: 0 <= i < |r| ==> WithPassword(r[i], users[i].password) == users[i]
  {
    seq(|users|, i requires 0 <= i < |users| => WithoutPassword(users[i]))
  }

  /** Two accounts that differ only in their password hash look the same. */
  lemma PasswordHidden(u: User, password: string)
    ensures WithoutPassword(u.(password := password)) == WithoutPassword(u)
  {
  }

  // ---------------------------------------------------------- toggleUserStatus

  /** The account with its `isActive` flag negated. */
  function Toggled(u: User): (t: User)
    ensures t.isActive == !u.isActive
    ensures t.(isActive := u.isActive) == u
  {
    u.(isActive := !u.isActive)
  }

  /** The collection after toggling the account at position `i`. */
  function ToggleAt(users: seq<User>, i: nat): (r: seq<User>)
    requires i < |users|
    ensures |r| == |users| && r[i] == Toggled(users[i])
    ensures forall k :: 0 <= k < |users| && k != i ==> r[k] == users[k]
  {
    users[i := Toggled(users[i])]
  }

  /** Toggling the same account twice restores the collection. */
  lemma {:induction false} ToggleTwice(users: seq<User>, i: nat)
    requires i < |users|
    ensures ToggleAt(ToggleAt(users, i), i) == users
  {
    assert Toggled(Toggled(users[i])) == users[i];
  }

  /** `toggleUserStatus`: 404 for an unknown id; otherwise the account's
      `isActive` is negated and saved. The save reports only `isActive` as
      modified, so the pre-save hook leaves the password hash alone, and the
      email is the account's own, so the unique index never refuses it. */
  method ToggleUserStatus(users: UserStore, caller: Caller, id: Id) returns (r: Result<User>)
    requires caller.role == Admin
    requires users.Valid()
    modifies users
    ensures users.Valid() && users.nextId == old(users.nextId)
    ensures IndexOfUser(old(users.docs), id).None? ==> r == Err(NotFound) && users.docs == old(users.docs)
    ensures IndexOfUser(old(users.docs), id).Some? ==>
              var i := IndexOfUser(old(users.docs), id).value;
              users.docs == ToggleAt(old(users.docs), i) && r == Ok(users.docs[i])
  {
    var found := IndexOfUser(users.docs, id);
    if found.None? {
      return Err(NotFound);
    }
    var i := found.value;
    var user := users.docs[i];
    user := user.(isActive := !user.isActive);
    assert WellFormed(users.docs[i]);
    assert forall k :: 0 <= k < |users.docs| && k != i ==> users.docs[k].email != user.email;
    var saved := users.Save(i, user, {IsActivePath});
    assert saved;
    r := Ok(user);
  }

  // ----------------------------------------------------------------- addDoctor

  /** The draft `addDoctor` hands to `User.create`: the four request fields,
      the role fixed to `doctor`, `isActive` left to its default. */
  function DoctorDraft(name: Option<string>, email: Option<string>, password: Option<string>,
                       specialization: Option<string>): (d: UserDraft)
    ensures d.role == Doctor && d.isActive.None?
    ensures d.name == name && d.email == email && d.password == password && d.specialization == specialization
  {
    UserDraft(name, email, password, Doctor, specialization, None)
  }

  /** `addDoctor`: the created account is an active doctor whatever the
      request held; a taken email answers 400 and a failed validation 500,
      and in both cases no account is added. */
  method AddDoctor(users: UserStore, caller: Caller, name: Option<string>, email: Option<string>,
                   password: Option<string>, specialization: Option<string>)
    returns (r: Result<User>)
    requires caller.role == Admin
    requires users.Valid()
    modifies users
    ensures users.Valid()
    ensures var d := DoctorDraft(name, email, password, specialization);
            if !Validates(ApplySetters(d)) then
              r == Err(ServerError) && users.docs == old(users.docs) && users.nextId == old(users.nextId)
            else if old(users.EmailTaken(NormalizeEmail(email.value))) then
              r == Err(BadRequest(EmailInUse)) && users.docs == old(users.docs) && users.nextId == old(users.nextId)
            else
              r == Ok(NewUser(old(users.nextId), d, users.hash))
              && users.docs == old(users.docs) + [r.value] && users.nextId == old(users.nextId) + 1
    ensures r.Ok? ==> r.value.role == Doctor && r.value.isActive
  {
    var doctor := users.Create(DoctorDraft(name, email, password, specialization));
    match doctor
    case Written(u) =>
      r := Ok(u);
    case Refused(DuplicateKey) =>
      r := Err(BadRequest(EmailInUse));
    case Refused(ValidationError) =>
      r := Err(ServerError);
  }

  // -------------------------------------------------------- getAllAppointments

  /** `getAllAppointments`: every appointment, each as often as it is stored,
      newest first. */
  function GetAllAppointments(caller: Caller, appts: seq<Appointment>): (r: seq<Appointment>)
    requires caller.role == Admin
    ensures multiset(r) == multiset(appts)
    ensures DescendingBy(r, AppointmentController.CreatedAt)
  {
    SortDesc(appts, AppointmentController.CreatedAt)
  }

  /** An admin's `getAppointments` view holds the same appointments as
      `getAllAppointments`: the visibility filter keeps everything. */
  lemma AdminSeesAll(caller: Caller, appts: seq<Appointment>)
    requires caller.role == Admin
    ensures multiset(Filter(appts, (a: Appointment) => AppointmentController.VisibleTo(caller, a)))
            == multiset(GetAllAppointments(caller, appts))
  {
    FilterAll(appts, (a: Appointment) => AppointmentController.VisibleTo(caller, a));
  }
}
