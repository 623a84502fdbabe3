# Account creation and phone-number validation, verified in Dafny

This project models the two pieces of logic in a web application's user-account
subsystem:

- **The phone-number validator** (`PhoneValidator`, `phone.dfy`). `is_telephone_number_invalid`
  reports `None` as invalid. It reports a string as valid exactly when a
  regular-expression search for `\b0\d{2,3}\d{8}\b` succeeds. The model states the
  pattern's meaning literally: `MatchesAt` checks the word boundary, the `0`, the 2 or 3
  digits, the 8 digits and the closing word boundary. `Searches` says that some start
  index matches. `SearchFrom` is the search itself: it tries each start index in turn,
  as `re.search` does. The validator's contract ties its result to `Searches`. Then
  `SearchesIffPhoneRun` proves the closed form: the search succeeds exactly when some
  *maximal run of word characters* is `0` followed by 10 or 11 digits. The lemmas after
  it derive sample accept and reject cases from that closed form.
- **The account factory** (`Accounts`, `accounts.dfy`). `UserManager` is a class. It
  holds the two framework collaborators, the e-mail normaliser and the password
  hasher, as opaque function-valued constants. Its store `saved` is the sequence of
  records persisted so far. `CreateUser` follows the source's order:
  1. normalise a truthy e-mail;
  2. drop the `username` extra field;
  3. validate the phone number, failing with `ValidationError("Phone number is not ok format.")` before anything is built;
  4. build a `User` object;
  5. set a truthy password;
  6. save once and return the user.

  `CreateSuperuser` delegates to `CreateUser` with `is_staff` forced on and
  `is_superuser` added to the extra fields; an `is_active` among those extra fields
  becomes `create_user`'s `is_active` argument, as Python's keyword binding does. `BuiltRecord` describes, as a pure
  function of the arguments, the record the factory saves. Both methods promise that
  the returned user's snapshot equals that record, and that the store grows by exactly
  that one record.

The code never passes `phone_number` to the model constructor; it only validates it.
So every record the factory builds keeps the framework's blank default in its phone
field, and `User.Str` (the source's `__str__`) returns the empty string for a freshly
created user. The model keeps this as written. Its biggest practical effect is on
persistence. `phone_number` is declared unique (`src/apps/accounts/models.py:40`), so
against a real database the second successful creation would fail at `user.save()`
with a uniqueness violation. In `FactoryScenarios` the store holds two records with
the blank phone number only because this model leaves uniqueness out.

Facts about the code that a reader might not expect:

- `"0123456789012"` has 13 digits, and the validator rejects it (`RejectedExamples`).
- The pattern requires the leading `0`.
- A falsy password makes no `set_password` call, so no credential is recorded (`password == None`).
- `USERNAME_FIELD = "phone_number"` (`src/apps/accounts/models.py:54`) makes the phone
  number the login identifier, yet the factory never stores it.

## Model

| member | source | states |
|---|---|---|
| `PhoneValidator.IsTelephoneNumberInvalid` | src/apps/core/utils/common.py:7-13 | `None` is invalid; a string is invalid exactly when the pattern `\b0\d{2,3}\d{8}\b` matches at no index of it |
| `PhoneValidator.SearchFrom` | src/apps/core/utils/common.py:10 | trying start indices from `i` on succeeds exactly when the pattern matches at some index `j >= i` |
| `PhoneValidator.MatchIsPhoneRun` | src/apps/core/utils/common.py:10 | a match of the pattern spans exactly one maximal word run, which is `0` followed by 10 or 11 digits |
| `PhoneValidator.PhoneRunMatches` | src/apps/core/utils/common.py:10 | a maximal word run of the form `0` + 10 or 11 digits is matched by the pattern at its first index |
| `PhoneValidator.SearchesIffPhoneRun` | src/apps/core/utils/common.py:10-13 | the search succeeds if and only if some maximal run of word characters is `0` followed by 10 or 11 digits |
| `PhoneValidator.ValidIffPhoneRun` | src/apps/core/utils/common.py:10-13 | a string is reported valid if and only if it contains a maximal word run of that form |
| `PhoneValidator.WholeWordValidIff` | src/apps/core/utils/common.py:10-13 | a string of word characters only is valid if and only if the whole string is `0` + 10 or 11 digits |
| `PhoneValidator.AllDigitsValidIff` | src/apps/core/utils/common.py:10-13 | an all-digit string is valid if and only if it has 11 or 12 digits and starts with `0`; any other length is invalid |
| `PhoneValidator.EmbeddedRunIsValid` | src/apps/core/utils/common.py:10-11 | a phone run with a non-word character or a string end on each side is accepted wherever it stands (search, not full match) |
| `PhoneValidator.PrefixedRunValidIff` | src/apps/core/utils/common.py:10-13 | a word character glued in front of a phone run removes the boundary; the result is valid only if that character is `0` and the run had 11 characters |
| `PhoneValidator.SuffixedRunValidIff` | src/apps/core/utils/common.py:10-13 | a word character glued after a phone run removes the boundary; the result is valid only if that character is a digit and the run had 11 characters |
| `PhoneValidator.NoZeroIsInvalid` | src/apps/core/utils/common.py:10-13 | a string without a `0` is invalid |
| `PhoneValidator.ElevenDigitExample` | src/apps/core/utils/common.py:10-11 | `"09123456789"` (`0` + 10 digits) is valid |
| `PhoneValidator.TwelveDigitExample` | src/apps/core/utils/common.py:10-11 | `"091234567890"` (`0` + 11 digits) is valid |
| `PhoneValidator.LabelledExample` | src/apps/core/utils/common.py:10-11 | `"tel: 09123456789"` is valid |
| `PhoneValidator.GluedExamples` | src/apps/core/utils/common.py:10-13 | `"x09123456789"`, `"09123456789_"` and `"xx01234567891yy"` are invalid: letters or an underscore glued on remove the word boundary, so a search is not a substring test |
| `PhoneValidator.RejectedExamples` | src/apps/core/utils/common.py:10-13 | `"0912345678"`, `"0123456789012"`, `"123"`, `"hello"` and `"bad-number"` are invalid |
| `Accounts.BuiltRecord` | src/apps/accounts/models.py:16-28 | the saved record has a normalised e-mail when the e-mail is truthy and the e-mail unchanged otherwise; it has `is_active` and `is_staff` as given; its fields are the extra fields without `username`, all others unchanged; it has a hashed password only when the password is truthy; its phone field is the blank default, because the phone number is never passed |
| `Accounts.SuperuserRecord` | src/apps/accounts/models.py:32-36 | with no `is_active` among the extra fields, a superuser record is staff and active, has `is_superuser` set to true, and has the extra fields minus `username` plus `is_superuser` |
| `Accounts.User.constructor` | src/apps/accounts/models.py:24-26 | the new object holds exactly the e-mail, flags and fields it is given; it has a blank phone number and no password |
| `Accounts.User.SetPassword` | src/apps/accounts/models.py:27-28 | only the password changes, to the hash of the raw password |
| `Accounts.User.Str` | src/apps/accounts/models.py:56-57 | a user's display text is its phone-number field |
| `Accounts.UserManager.constructor` | src/apps/accounts/models.py:11 | a manager starts with its collaborators and an empty store |
| `Accounts.UserManager.Save` | src/apps/accounts/models.py:29 | the store grows by the user's current record and nothing else |
| `Accounts.UserManager.CreateUser` | src/apps/accounts/models.py:12-30 | fails if and only if the phone number is invalid; the failure is `ValidationError("Phone number is not ok format.")` and leaves the store unchanged; on success it returns a fresh user whose record is `BuiltRecord` of the arguments, and the store grows by exactly that record |
| `Accounts.UserManager.CreateSuperuser` | src/apps/accounts/models.py:32-36 | the same as `CreateUser` with `is_staff` on and `is_superuser` added to the extra fields. An `is_active` among the extra fields becomes the `is_active` argument and leaves the fields; otherwise `is_active` is on. It has the same validation failure, the same `username` removal and one saved record |

## Left out

- Unicode: `\d` and `\w` are ASCII here. Python also counts other Unicode digits and letters.
- Non-string phone numbers: Python's `re.search` raises `TypeError` for a value that is neither `None` nor a string. The model's argument is an optional string.
- Accounts.UserManager.CreateSuperuser: requires `is_staff` and `is_superuser` to be absent from its extra fields; in Python either one raises a `TypeError` for a duplicate keyword. It also requires an `is_active` given there to be a boolean, because the record's `is_active` is a boolean here; Python would pass any object on.
- Password salt: `makePassword` is a fixed function, while Django's `make_password` adds a random salt. So in the model two users with the same password store equal hashes, and equality of hashes between users means nothing.
- The framework collaborators: how `normalize_email` rewrites an address, how `make_password` hashes, and what `AbstractUser`/`BaseUserManager` add are not visible. They are opaque functions, or left out.
- Persistence: storage-level constraints (`unique`, `max_length`, `null`, `blank`) and the uniqueness-violation error from the database are left out. The store only records what was saved. The `User.save` override is a pass-through and is left out.
- Extra-field values are booleans, text or `None` (`Value`). Python accepts any object.
- The `**extra_fields` dictionary is built afresh for each call. Its in-place `pop` is therefore modelled as reassigning a local map.
- The commented-out slug and random-string generators in `common.py` are dead code and are left out.
