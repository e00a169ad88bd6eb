/** The `User` collection: the account record, the setters, validators and
    defaults of its schema, the unique index on `email`, and the pre-save
    hook that hashes a modified password. */
module UserModel {
  import opened Common
  import opened Text
  import Seqs

  /** A stored account. `role` ranges over the schema's enum by construction. */
  datatype User = User(
    id: Id,
    name: string,
    email: string,
    password: string,
    role: Role,
    specialization: Option<string>,
    isActive: bool)

  /** The document paths `isModified` can report on a save. */
  datatype Path = NamePath | EmailPath | PasswordPath | RolePath | SpecializationPath | IsActivePath

  /** The fields handed to `User.create`; `None` is a field left undefined. */
  datatype UserDraft = UserDraft(
    name: Option<string>,
    email: Option<string>,
    password: Option<string>,
    role: Role,
    specialization: Option<string>,
    isActive: Option<bool>)

  /** The schema's setters: `name` and `specialization` are trimmed, `email`
      is lowercased and trimmed; the others are stored as given. */
  function ApplySetters(d: UserDraft): (n: UserDraft)
    ensures n.password == d.password && n.role == d.role && n.isActive == d.isActive
    ensures d.email.Some? <==> n.email.Some?
    ensures d.email.Some? ==> n.email.value == NormalizeEmail(d.email.value)
    ensures n.name == TrimField(d.name) && n.specialization == TrimField(d.specialization)
    ensures n.name.Some? ==> IsTrimmed(n.name.value)
    ensures n.specialization.Some? ==> IsTrimmed(n.specialization.value)
  {
    UserDraft(
      TrimField(d.name),
      match d.email case None => None case Some(e) => Some(NormalizeEmail(e)),
      d.password,
      d.role,
      TrimField(d.specialization),
      d.isActive)
  }

  /** The `required` validators of `name`, `email` and `password`. */
  predicate Validates(d: UserDraft) {
    Present(d.name) && Present(d.email) && Present(d.password)
  }

  /** What the schema guarantees of every stored account. */
  predicate WellFormed(u: User) {
    && u.name != [] && IsTrimmed(u.name)
    && u.email != [] && IsTrimmed(u.email) && IsLower(u.email)
    && (u.specialization.Some? ==> IsTrimmed(u.specialization.value))
  }

  /** The pre-save hook: the password is replaced by its hash exactly when
      the save reports the `password` path as modified. */
  function PreSave(doc: User, modified: set<Path>, hash: string -> string): (saved: User)
    ensures saved == doc.(password := saved.password)
    ensures PasswordPath !in modified ==> saved == doc
    ensures PasswordPath in modified ==> saved.password == hash(doc.password)
  {
    if PasswordPath !in modified then doc
    else doc.(password := hash(doc.password))
  }

  /** The account `User.create` builds from a validated draft: setters
      applied, `isActive` defaulting to true, and (a new document having
      every path modified) the password hashed. */
  function NewUser(id: Id, d: UserDraft, hash: string -> string): (u: User)
    requires Validates(ApplySetters(d))
    ensures u.id == id && u.role == d.role
    ensures u.isActive == (d.isActive != Some(false))
    ensures u.password == hash(d.password.value)
    ensures u.email == NormalizeEmail(d.email.value)
    ensures u.name == Trim(d.name.value) && u.specialization == TrimField(d.specialization)
    ensures WellFormed(u)
  {
    var n := ApplySetters(d);
    var doc := User(id, n.name.value, n.email.value, n.password.value, n.role, n.specialization,
                    match n.isActive case Some(b) => b case None => true);
    PreSave(doc, {NamePath, EmailPath, PasswordPath, RolePath, SpecializationPath, IsActivePath}, hash)
  }

  /** A draft without an explicit `isActive` creates an active account. */
  lemma {:induction false} DefaultActive(id: Id, d: UserDraft, hash: string -> string)
    requires Validates(ApplySetters(d)) && d.isActive.None?
    ensures NewUser(id, d, hash).isActive
  {
  }

  /** The position of the account with id `id` (`findById`). */
  function IndexOfUser(users: seq<User>, id: Id): (r: Option<nat>)
    ensures r.Some? ==> r.value < |users| && users[r.value].id == id
    ensures r.None? ==> forall k :: 0 <= k < |users| ==> users[k].id != id
  {
    Seqs.FindIndex(users, (u: User) => u.id == id)
  }

  /** `findById`: the account with id `id`, if there is one. */
  function FindUser(users: seq<User>, id: Id): (r: Option<User>)
    ensures r.Some? <==> exists k :: 0 <= k < |users| && users[k].id == id
    ensures r.Some? ==> r.value in users && r.value.id == id
  {
    match IndexOfUser(users, id)
    case None => None
    case Some(k) => Some(users[k])
  }

  /** Ids are issued in increasing order below `nextId`, the unique index on
      `email` holds, and every account satisfies the schema. */
  ghost predicate Consistent(users: seq<User>, nextId: Id) {
    && (forall i :: 0 <= i < |users| ==> users[i].id < nextId && WellFormed(users[i]))
    && (forall i, j :: 0 <= i < j < |users| ==> users[i].id < users[j].id)
    && (forall i, j :: 0 <= i < j < |users| ==> users[i].email != users[j].email)
  }

  /** Appending a well-formed account with a fresh id and a free email keeps
      the collection consistent. */
  lemma ConsistentAppend(users: seq<User>, nextId: Id, u: User)
    requires Consistent(users, nextId)
    requires u.id == nextId && WellFormed(u)
    requires forall k :: 0 <= k < |users| ==> users[k].email != u.email
    ensures Consistent(users + [u], nextId + 1)
  {
    var s := users + [u];
    assert forall k :: 0 <= k < |users| ==> s[k] == users[k];
  }

  /** The in-memory stand-in for the MongoDB `users` collection. */
  class UserStore {
    /** `bcrypt.hash(·, 12)`, an opaque function here. */
    const hash: string -> string
    var docs: seq<User>
    var nextId: Id

    /** Ids are issued in increasing order, the unique index on `email`
        holds, and every account satisfies the schema. */
    ghost predicate Valid()
      reads this
    {
      Consistent(docs, nextId)
    }

    constructor (hash: string -> string)
      ensures Valid() && this.hash == hash && docs == []
    {
      this.hash := hash;
      docs := [];
      nextId := 0;
    }

    /** Some account already holds `email`. */
    predicate EmailTaken(email: string)
      reads this
    {
      exists k :: 0 <= k < |docs| && docs[k].email == email
    }

    /** `User.create`: setters, validation, the pre-save hook, then the
        insert that the unique index on `email` may refuse. */
    method Create(draft: UserDraft) returns (r: Write<User>)
      requires Valid()
      modifies this
      ensures Valid()
      ensures !Validates(ApplySetters(draft)) ==>
                r == Refused(ValidationError) && docs == old(docs) && nextId == old(nextId)
      ensures Validates(ApplySetters(draft)) && old(EmailTaken(NormalizeEmail(draft.email.value))) ==>
                r == Refused(DuplicateKey) && docs == old(docs) && nextId == old(nextId)
      ensures Validates(ApplySetters(draft)) && !old(EmailTaken(NormalizeEmail(draft.email.value))) ==>
                var u := NewUser(old(nextId), draft, hash);
                r == Written(u) && docs == old(docs) + [u] && nextId == old(nextId) + 1
    {
      if !Validates(ApplySetters(draft)) {
        return Refused(ValidationError);
      }
      var u := NewUser(nextId, draft, hash);
      if EmailTaken(u.email) {
        return Refused(DuplicateKey);
      }
      ConsistentAppend(docs, nextId, u);
      docs := docs + [u];
      nextId := nextId + 1;
      r := Written(u);
    }

    /** `doc.save()` on the account at position `i`: the pre-save hook for
        the paths reported modified, then the write that the unique index on
        `email` may refuse. */
    method Save(i: nat, doc: User, modified: set<Path>) returns (saved: bool)
      requires Valid() && i < |docs| && doc.id == docs[i].id && WellFormed(doc)
      modifies this
      ensures Valid() && nextId == old(nextId)
      ensures saved <==> forall k :: 0 <= k < |old(docs)| && k != i ==> old(docs)[k].email != doc.email
      ensures saved ==> docs == old(docs)[i := PreSave(doc, modified, hash)]
      ensures !saved ==> docs == old(docs)
    {
      var stored := PreSave(doc, modified, hash);
      saved := forall k :: 0 <= k < |docs| && k != i ==> docs[k].email != stored.email;
      if saved {
        docs := docs[i := stored];
      }
    }
  }
}
