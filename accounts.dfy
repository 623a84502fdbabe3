/**
  The account factory: `UserManager.create_user` and `create_superuser`.

  The framework collaborators are opaque here: the e-mail normaliser and the
  password hasher are functions the manager is given, and the persistence
  layer is the manager's store, the sequence of records saved so far.
 */
module Accounts {
  import opened PhoneValidator

  /** A value passed through the factory's extra keyword fields. */
  datatype Value = Flag(b: bool) | Text(s: string) | Null

  datatype Error = ValidationError(message: string)

  datatype Result<T> = Success(value: T) | Failure(error: Error)

  const PhoneFormatMessage: string := "Phone number is not ok format."

  /** The framework's default for a text field given no value: the empty string. */
  const BlankPhoneNumber: string := ""

  /** Python truthiness of an optional string: present and not empty. */
  predicate Truthy(s: Option<string>) {
    s.Some? && s.value != ""
  }

  /** A user record as it is persisted. */
  datatype Row = Row(
    phoneNumber: string,
    email: Option<string>,
    isActive: bool,
    isStaff: bool,
    fields: map<string, Value>,
    password: Option<string>)

  /**
    The record `create_user` builds and saves from its arguments. The phone
    number is not among them: it is validated but never handed to the record.
   */
  function BuiltRecord(
    normalizeEmail: string -> string, makePassword: string -> string,
    email: Option<string>, password: Option<string>,
    isStaff: bool, isActive: bool, extraFields: map<string, Value>): (r: Row)
    ensures r.phoneNumber == BlankPhoneNumber
    ensures Truthy(email) ==> r.email == Some(normalizeEmail(email.value))
    ensures !Truthy(email) ==> r.email == email
    ensures r.isActive == isActive && r.isStaff == isStaff
    ensures "username" !in r.fields
    ensures forall k :: k in extraFields && k != "username" ==> k in r.fields && r.fields[k] == extraFields[k]
    ensures forall k :: k in r.fields ==> k in extraFields
    ensures Truthy(password) ==> r.password == Some(makePassword(password.value))
    ensures !Truthy(password) ==> r.password == None
  {
    var e := if Truthy(email) then Some(normalizeEmail(email.value)) else email;
    var p := if Truthy(password) then Some(makePassword(password.value)) else None;
    Row(BlankPhoneNumber, e, isActive, isStaff, extraFields - {"username"}, p)
  }

  /** The record `create_superuser` builds: staff, with `is_superuser` among its fields. */
  lemma SuperuserRecord(
    normalizeEmail: string -> string, makePassword: string -> string,
    email: Option<string>, password: Option<string>, extraFields: map<string, Value>)
    requires "is_superuser" !in extraFields
    ensures var r := BuiltRecord(normalizeEmail, makePassword, email, password, true, true,
                                 extraFields["is_superuser" := Flag(true)]);
      && r.isStaff && r.isActive
      && "is_superuser" in r.fields && r.fields["is_superuser"] == Flag(true)
      && r.fields.Keys == extraFields.Keys - {"username"} + {"is_superuser"}
  {
    var extras := extraFields["is_superuser" := Flag(true)];
    var r := BuiltRecord(normalizeEmail, makePassword, email, password, true, true, extras);
    assert r.fields == extras - {"username"};
  }

  /** A user object; `SetPassword` changes it before it is saved. */
  class User {
    var phoneNumber: string
    var email: Option<string>
    var isActive: bool
    var isStaff: bool
    var fields: map<string, Value>
    var password: Option<string>

    /** `self.model(email=..., is_active=..., is_staff=..., **fields)`: no phone number and no password are given. */
    constructor (email: Option<string>, isActive: bool, isStaff: bool, fields: map<string, Value>)
      ensures Snapshot() == Row(BlankPhoneNumber, email, isActive, isStaff, fields, None)
    {
      this.phoneNumber := BlankPhoneNumber;
      this.email := email;
      this.isActive := isActive;
      this.isStaff := isStaff;
      this.fields := fields;
      this.password := None;
    }

    /** The record this object would be saved as. */
    function Snapshot(): Row
      reads this
    {
      Row(phoneNumber, email, isActive, isStaff, fields, password)
    }

    /** `set_password`: stores the hashed credential and changes nothing else. */
    method SetPassword(raw: string, makePassword: string -> string)
      modifies this
      ensures Snapshot() == old(Snapshot()).(password := Some(makePassword(raw)))
    {
      password := Some(makePassword(raw));
    }

    /** `__str__`: a user is shown by its phone number. */
    function Str(): (r: string)
      reads this
      ensures r == Snapshot().phoneNumber
    {
      phoneNumber
    }
  }

  class UserManager {
    const normalizeEmail: string -> string
    const makePassword: string -> string
    /** The records saved so far, oldest first. */
    var saved: seq<Row>

    constructor (normalizeEmail: string -> string, makePassword: string -> string)
      ensures this.normalizeEmail == normalizeEmail && this.makePassword == makePassword
      ensures saved == []
    {
      this.normalizeEmail := normalizeEmail;
      this.makePassword := makePassword;
      saved := [];
    }

    /** `user.save()`: the current state of the user becomes one more stored record. */
    method Save(user: User)
      modifies this
      ensures saved == old(saved) + [user.Snapshot()]
    {
      saved := saved + [user.Snapshot()];
    }

    /**
      `create_user`. An invalid phone number fails with a validation error
      before anything is built or saved; otherwise exactly one record, the
      one returned, is added to the store.
     */
    method CreateUser(
      phoneNumber: Option<string>, email: Option<string> := None, password: Option<string> := None,
      isStaff: bool := false, isActive: bool := true, extraFields: map<string, Value> := map[])
      returns (result: Result<User>)
      modifies this
      ensures result.Failure? <==> IsTelephoneNumberInvalid(phoneNumber)
      ensures result.Failure? ==> result.error == ValidationError(PhoneFormatMessage) && saved == old(saved)
      ensures result.Success? ==>
        && fresh(result.value)
        && result.value.Snapshot()
           == BuiltRecord(normalizeEmail, makePassword, email, password, isStaff, isActive, extraFields)
        && saved == old(saved) + [result.value.Snapshot()]
    {
      var email := email;
      if Truthy(email) {
        email := Some(normalizeEmail(email.value));
      }
      var extraFields := extraFields - {"username"};
      if IsTelephoneNumberInvalid(phoneNumber) {
        return Failure(ValidationError(PhoneFormatMessage));
      }
      var user := new User(email, isActive, isStaff, extraFields);
      if Truthy(password) {
        user.SetPassword(password.value, makePassword);
      }
      Save(user);
      return Success(user);
    }

    /**
      `create_superuser`: `create_user` with `is_staff` forced on and
      `is_superuser` added to the extra fields. An `is_active` among the
      extra fields binds, by Python's keyword rules, to `create_user`'s own
      `is_active` parameter and leaves the extra fields.
     */
    method CreateSuperuser(
      phoneNumber: Option<string>, email: Option<string> := None, password: Option<string> := None,
      extraFields: map<string, Value> := map[])
      returns (result: Result<User>)
      requires "is_staff" !in extraFields && "is_superuser" !in extraFields
      requires "is_active" in extraFields ==> extraFields["is_active"].Flag?
      modifies this
      ensures result.Failure? <==> IsTelephoneNumberInvalid(phoneNumber)
      ensures result.Failure? ==> result.error == ValidationError(PhoneFormatMessage) && saved == old(saved)
      ensures result.Success? ==>
        && fresh(result.value)
        && result.value.Snapshot()
           == BuiltRecord(normalizeEmail, makePassword, email, password, true,
                          if "is_active" in extraFields then extraFields["is_active"].b else true,
                          (extraFields - {"is_active"})["is_superuser" := Flag(true)])
        && saved == old(saved) + [result.value.Snapshot()]
    {
      var isActive := true;
      if "is_active" in extraFields {
        isActive := extraFields["is_active"].b;
      }
      var passed := (extraFields - {"is_active"})["is_superuser" := Flag(true)];
      result := CreateUser(phoneNumber, email, password, isStaff := true, isActive := isActive,
                           extraFields := passed);
    }
  }

  /**
    Sample uses of the factory, followed through the contracts above. Every
    saved record carries the blank phone number, so a store enforcing the
    uniqueness of phone numbers would reject the second save; that
    constraint is not part of this model.
   */
  method FactoryScenarios(normalizeEmail: string -> string, makePassword: string -> string)
  {
    var manager := new UserManager(normalizeEmail, makePassword);

    RejectedExamples();
    var bad := manager.CreateUser(Some("bad-number"));
    assert bad == Failure(ValidationError(PhoneFormatMessage));
    assert manager.saved == [];

    ElevenDigitExample();
    var plain := manager.CreateUser(Some("09123456789"), extraFields := map["username" := Text("x"), "first_name" := Text("Ada")]);
    assert plain.Success?;
    var row := plain.value.Snapshot();
    assert "username" !in row.fields && row.fields["first_name"] == Text("Ada");
    assert !row.isStaff && row.isActive && row.email == None && row.password == None;
    assert plain.value.Str() == BlankPhoneNumber;
    assert manager.saved == [row];

    var admin := manager.CreateSuperuser(Some("09123456789"), email := Some("A@Example.COM"), password := Some("secret"));
    assert admin.Success?;
    var adminRow := admin.value.Snapshot();
    SuperuserRecord(normalizeEmail, makePassword, Some("A@Example.COM"), Some("secret"), map[]);
    assert adminRow.isStaff && adminRow.fields["is_superuser"] == Flag(true);
    assert adminRow.email == Some(normalizeEmail("A@Example.COM"));
    assert adminRow.password == Some(makePassword("secret"));
    assert manager.saved == [row, adminRow];

    var inactive := manager.CreateSuperuser(Some("09123456789"), extraFields := map["is_active" := Flag(false)]);
    assert inactive.Success?;
    var inactiveRow := inactive.value.Snapshot();
    assert !inactiveRow.isActive && inactiveRow.isStaff && "is_active" !in inactiveRow.fields;
  }
}
