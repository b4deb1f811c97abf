/**
 * The profile-edit form: loading the profile and the class list, the
 * client-side validation of username and phone, the normalised payload
 * sent on save, and the avatar initial.
 */
module EditProfile {
  import opened Wrappers
  import Text
  import SelectDropdown

  const UsernameKey := "username"
  const PhoneKey := "phone"
  const UsernameRequiredMessage := "Username is required"
  const UsernameShortMessage := "Username must be at least 3 characters"
  const PhoneMessage := "Enter a valid 10-digit Indian mobile number"

  function Trimmed(s: string): string {
    Text.Trim(s, Text.IsJsSpace)
  }

  predicate IsDigit(c: char) {
    '0' <= c <= '9'
  }

  /** `/^[6-9]\d{9}$/`: ten ASCII digits, the first of them 6 to 9. */
  predicate IsIndianMobile(p: string) {
    |p| == 10 && '6' <= p[0] <= '9' && forall k :: 1 <= k < 10 ==> IsDigit(p[k])
  }

  /**
   * The error map `validate` builds from its three tests; a later
   * assignment to the same key replaces an earlier one.
   */
  function ErrorMap(blank: bool, short: bool, phoneBad: bool): (e: map<string, string>)
    ensures e.Keys <= {UsernameKey, PhoneKey}
  {
    var required: map<string, string> := if blank then map[UsernameKey := UsernameRequiredMessage] else map[];
    var lengthChecked := if short then required[UsernameKey := UsernameShortMessage] else required;
    if phoneBad then lengthChecked[PhoneKey := PhoneMessage] else lengthChecked
  }

  /** A blank username is also a short one, so its "required" entry is always replaced. */
  lemma ErrorMapKeys(blank: bool, short: bool, phoneBad: bool)
    requires blank ==> short
    ensures var e := ErrorMap(blank, short, phoneBad);
      (UsernameKey in e <==> short) && (short ==> e[UsernameKey] == UsernameShortMessage)
      && (PhoneKey in e <==> phoneBad) && (phoneBad ==> e[PhoneKey] == PhoneMessage)
      && e.Keys <= {UsernameKey, PhoneKey}
      && (e == map[] <==> !short && !phoneBad)
  {
    var e := ErrorMap(blank, short, phoneBad);
    if short || phoneBad {
      assert UsernameKey in e || PhoneKey in e;
    }
  }

  /** The error map `validate` records for the form's fields. */
  function Errors(username: string, phone: string): (e: map<string, string>)
    ensures e.Keys <= {UsernameKey, PhoneKey}
  {
    var t := Trimmed(username);
    ErrorMap(t == [], Text.Utf16Length(t) < 3, phone != "" && !IsIndianMobile(phone))
  }

  /**
   * The username is in error exactly when it is shorter than three UTF-16
   * code units once trimmed, the phone exactly when it is non-empty and not
   * a valid mobile number, and there are no other keys.
   */
  lemma ErrorKeys(username: string, phone: string)
    ensures var e := Errors(username, phone);
      (UsernameKey in e <==> Text.Utf16Length(Trimmed(username)) < 3)
      && (UsernameKey in e ==> e[UsernameKey] == UsernameShortMessage)
      && (PhoneKey in e <==> phone != "" && !IsIndianMobile(phone))
      && (PhoneKey in e ==> e[PhoneKey] == PhoneMessage)
      && e.Keys <= {UsernameKey, PhoneKey}
  {
    var t := Trimmed(username);
    ErrorMapKeys(t == [], Text.Utf16Length(t) < 3, phone != "" && !IsIndianMobile(phone));
  }

  /** The form passes validation: a username of at least three UTF-16 code units once trimmed, and no phone or a valid one. */
  predicate Passes(username: string, phone: string) {
    Text.Utf16Length(Trimmed(username)) >= 3 && (phone == "" || IsIndianMobile(phone))
  }

  /** `validate` records no error exactly when the form passes. */
  lemma NoErrorsIffPasses(username: string, phone: string)
    ensures Errors(username, phone) == map[] <==> Passes(username, phone)
  {
    var t := Trimmed(username);
    ErrorMapKeys(t == [], Text.Utf16Length(t) < 3, phone != "" && !IsIndianMobile(phone));
  }

  /** A blank username is reported as too short: the "required" message never survives. */
  lemma BlankUsernameIsShort(username: string, phone: string)
    requires Trimmed(username) == []
    ensures UsernameKey in Errors(username, phone)
    ensures Errors(username, phone)[UsernameKey] == UsernameShortMessage
  {
    ErrorKeys(username, phone);
  }

  /** No character above U+FFFF is white space, so such a username is not trimmed. */
  lemma AstralUntrimmed(u: string)
    requires |u| == 2 && u[0] as int >= 0x1_0000 && u[1] as int >= 0x1_0000
    ensures Trimmed(u) == u
  {
    Text.TrimUnchanged(u, Text.IsJsSpace);
  }

  /** Two characters above U+FFFF are four UTF-16 code units. */
  lemma AstralLength(u: string)
    requires |u| == 2 && u[0] as int >= 0x1_0000 && u[1] as int >= 0x1_0000
    ensures Text.Utf16Length(u) == 4
  {
    assert Text.CodeUnitsFrom(u, 1) == 2;
  }

  /** A username with no surrounding white space and at least three code units passes, with no phone. */
  lemma LongUsernameAccepted(u: string)
    requires Trimmed(u) == u && Text.Utf16Length(u) >= 3
    ensures Errors(u, "") == map[]
  {
    ErrorMapKeys(u == [], false, false);
  }

  /**
   * `.length` counts UTF-16 code units: two characters above U+FFFF make a
   * long enough username.
   */
  lemma AstralUsernameAccepted(u: string)
    requires |u| == 2 && u[0] as int >= 0x1_0000 && u[1] as int >= 0x1_0000
    ensures |Trimmed(u)| == 2 && Errors(u, "") == map[]
  {
    AstralUntrimmed(u);
    AstralLength(u);
    LongUsernameAccepted(u);
  }

  /** With characters up to U+FFFF only, the code-unit rule is the character count. */
  lemma BmpUsernameLength(username: string)
    requires forall k :: 0 <= k < |username| ==> username[k] as int < 0x1_0000
    ensures Text.Utf16Length(Trimmed(username)) == |Trimmed(username)|
  {
    var t := Trimmed(username);
    Text.TrimIsSlice(username, Text.IsJsSpace);
    var i := Text.TrimStart(username, Text.IsJsSpace);
    forall k | 0 <= k < |t| ensures t[k] as int < 0x1_0000 {
      assert t[k] == username[i + k];
    }
    Text.BmpUtf16Length(t);
  }

  /** A phone with a surrounding space is refused, even when its trimmed text is a valid number. */
  lemma PaddedPhoneRefused(phone: string)
    requires phone != [] && Text.IsJsSpace(phone[0])
    ensures PhoneKey in Errors("", phone)
  {
    ErrorKeys("", phone);
  }

  /** A number the pattern accepts has no surrounding white space, so trimming keeps it. */
  lemma MobileTrimmed(phone: string)
    requires IsIndianMobile(phone)
    ensures Trimmed(phone) == phone
  {
    assert !Text.IsJsSpace(phone[0]) && !Text.IsJsSpace(phone[9]);
    Text.TrimUnchanged(phone, Text.IsJsSpace);
  }

  /** The assignments of `validate()`, one test at a time, given the outcome of the three tests. */
  method BuildErrors(blank: bool, short: bool, phoneBad: bool) returns (newErrors: map<string, string>)
    ensures newErrors == ErrorMap(blank, short, phoneBad)
  {
    newErrors := map[];
    if blank {
      newErrors := newErrors[UsernameKey := UsernameRequiredMessage];
    }
    if short {
      newErrors := newErrors[UsernameKey := UsernameShortMessage];
    }
    if phoneBad {
      newErrors := newErrors[PhoneKey := PhoneMessage];
    }
  }

  /** The body of `validate()` on the two fields: the error map, and whether it came out empty. */
  method CheckFields(username: string, phone: string) returns (newErrors: map<string, string>, ok: bool)
    ensures newErrors == Errors(username, phone)
    ensures ok <==> newErrors == map[]
    ensures ok <==> Passes(username, phone)
  {
    var t := Trimmed(username);
    var blank, short := t == [], Text.Utf16Length(t) < 3;
    var phoneBad := phone != "" && !IsIndianMobile(phone);
    newErrors := BuildErrors(blank, short, phoneBad);
    ErrorMapKeys(blank, short, phoneBad);
    // `Object.keys(newErrors).length === 0`
    ok := newErrors == map[];
  }

  /** The body of the profile update. */
  datatype Payload = Payload(username: string, phone: Option<string>, classId: Option<int>, userType: string)

  /** `{ username: username.trim(), phone: phone.trim() || null, class_id, user_type }`. */
  function PayloadOf(username: string, phone: string, classId: Option<int>, userType: string): (p: Payload)
    ensures p.username == Trimmed(username)
    ensures p.phone.None? <==> Trimmed(phone) == []
    ensures p.phone.Some? ==> p.phone.value == Trimmed(phone)
    ensures p.classId == classId && p.userType == userType
  {
    var ph := Trimmed(phone);
    Payload(Trimmed(username), if ph == [] then None else Some(ph), classId, userType)
  }

  /** A username that passes validation is sent as at least three code units with no surrounding white space. */
  lemma SentUsernameClean(username: string, phone: string)
    requires Errors(username, phone) == map[]
    ensures Text.Utf16Length(Trimmed(username)) >= 3 && Trimmed(username) != []
    ensures var t := Trimmed(username); !Text.IsJsSpace(t[0]) && !Text.IsJsSpace(t[|t| - 1])
  {
    ErrorKeys(username, phone);
    assert UsernameKey !in Errors(username, phone);
    Text.TrimEnds(username, Text.IsJsSpace);
  }

  /** A phone that passes validation is sent as typed, a valid mobile number, or as null when empty. */
  lemma SentPhoneClean(username: string, phone: string, classId: Option<int>, userType: string)
    requires Errors(username, phone) == map[]
    ensures var p := PayloadOf(username, phone, classId, userType).phone;
      (p.None? <==> phone == "") && (p.Some? ==> p.value == phone && IsIndianMobile(phone))
  {
    if phone != "" {
      ErrorKeys(username, phone);
      assert PhoneKey !in Errors(username, phone);
      MobileTrimmed(phone);
    }
  }

  // ---------------------------------------------------------------------
  // Class options
  // ---------------------------------------------------------------------

  function DigitChar(d: nat): (c: char)
    requires d < 10
    ensures IsDigit(c)
  {
    "0123456789"[d]
  }

  function DigitValue(c: char): nat
    requires IsDigit(c)
  {
    c as int - '0' as int
  }

  /** A template literal's rendering of a natural number. */
  function Decimal(n: nat): (s: string)
    ensures s != [] && forall k :: 0 <= k < |s| ==> IsDigit(s[k])
  {
    if n < 10 then [DigitChar(n)] else Decimal(n / 10) + [DigitChar(n % 10)]
  }

  /** Reading a string of digits back as a number. */
  function DecimalValue(s: string): nat
    requires forall k :: 0 <= k < |s| ==> IsDigit(s[k])
  {
    if s == [] then 0 else 10 * DecimalValue(s[..|s| - 1]) + DigitValue(s[|s| - 1])
  }

  lemma {:induction false} DecimalRoundTrip(n: nat)
    ensures DecimalValue(Decimal(n)) == n
  {
    var s := Decimal(n);
    if n >= 10 {
      DecimalRoundTrip(n / 10);
      assert s[..|s| - 1] == Decimal(n / 10);
    }
  }

  /** The fallback list: `Class 6` … `Class 12` with values 1 … 7. */
  function FallbackClasses(): (opts: seq<SelectDropdown.SelectOption>)
    ensures |opts| == 7
    ensures forall i :: 0 <= i < 7 ==>
      opts[i] == SelectDropdown.SelectOption("Class " + Decimal(i + 6), SelectDropdown.Num(i + 1))
  {
    seq(7, i requires 0 <= i < 7 => SelectDropdown.SelectOption("Class " + Decimal(i + 6), SelectDropdown.Num(i + 1)))
  }

  /** Each fallback label names, after "Class ", the number that is its value plus five. */
  lemma FallbackLabelsReadBack(i: nat)
    requires i < 7
    ensures var o := FallbackClasses()[i];
      o.labelText[..6] == "Class " && o.value.Num? && DecimalValue(o.labelText[6..]) == o.value.n + 5
  {
    var o := FallbackClasses()[i];
    assert o.labelText[6..] == Decimal(i + 6);
    DecimalRoundTrip(i + 6);
  }

  lemma FallbackExamples()
    ensures FallbackClasses()[0].labelText == "Class 6" && FallbackClasses()[0].value == SelectDropdown.Num(1)
    ensures FallbackClasses()[6].labelText == "Class 12" && FallbackClasses()[6].value == SelectDropdown.Num(7)
  {
    assert Decimal(12) == Decimal(1) + [DigitChar(2)];
  }

  /** A fetched class: its name and id. */
  datatype ClassRow = ClassRow(name: string, id: int)

  /** `loadClasses`: the fetched classes as options, or the fallback list when the request fails. */
  function ClassOptions(fetched: Option<seq<ClassRow>>): (opts: seq<SelectDropdown.SelectOption>)
    ensures fetched.None? ==> opts == FallbackClasses()
    ensures fetched.Some? ==> |opts| == |fetched.value|
    ensures fetched.Some? ==> forall i :: 0 <= i < |opts| ==>
      opts[i] == SelectDropdown.SelectOption(fetched.value[i].name, SelectDropdown.Num(fetched.value[i].id))
  {
    match fetched
    case None => FallbackClasses()
    case Some(rows) =>
      seq(|rows|, i requires 0 <= i < |rows| => SelectDropdown.SelectOption(rows[i].name, SelectDropdown.Num(rows[i].id)))
  }

  // ---------------------------------------------------------------------
  // Avatar
  // ---------------------------------------------------------------------

  /** ASCII upper-casing. */
  function Upper(c: char): (u: char)
    ensures 'a' <= c <= 'z' ==> u as int == c as int - 32
    ensures !('a' <= c <= 'z') ==> u == c
  {
    if 'a' <= c <= 'z' then (c as int - 32) as char else c
  }

  /** `(username || email).charAt(0).toUpperCase() || 'S'`. */
  function AvatarInitial(username: string, email: string): (r: char)
    ensures username != "" ==> r == Upper(username[0])
    ensures username == "" && email != "" ==> r == Upper(email[0])
    ensures username == "" && email == "" ==> r == 'S'
    ensures !('a' <= r <= 'z')
  {
    var shown := if username != "" then username else email;
    if shown == "" then 'S' else Upper(shown[0])
  }

  // ---------------------------------------------------------------------
  // The screen
  // ---------------------------------------------------------------------

  /** The profile as `/auth/me` returns it (absent fields as `None`). */
  datatype Profile = Profile(
    email: Option<string>, username: Option<string>, phone: Option<string>,
    classId: Option<int>, userType: Option<string>)

  /** `x || fallback` for an optional string. */
  function StringOr(x: Option<string>, fallback: string): string {
    if x.Some? && x.value != "" then x.value else fallback
  }

  class Form {
    var loading: bool
    var classes: seq<SelectDropdown.SelectOption>
    var username: string
    var phone: string
    var classId: Option<int>
    var userType: string
    var email: string
    var errors: map<string, string>
    /** The update requests sent so far. */
    var sent: seq<Payload>

    constructor ()
      ensures loading && classes == [] && username == "" && phone == "" && classId.None?
      ensures userType == "student" && email == "" && errors == map[] && sent == []
    {
      loading, classes := true, [];
      username, phone, classId, userType, email := "", "", None, "student", "";
      errors, sent := map[], [];
    }

    /** `loadProfile` finishing: the fields, with their fallbacks; a failed request leaves them. */
    method ProfileLoaded(user: Option<Profile>)
      modifies this
      ensures !loading && classes == old(classes) && errors == old(errors) && sent == old(sent)
      ensures user.None? ==>
        username == old(username) && phone == old(phone)
        && classId == old(classId) && userType == old(userType) && email == old(email)
      ensures user.Some? ==>
        email == StringOr(user.value.email, "") && username == StringOr(user.value.username, "")
        && phone == StringOr(user.value.phone, "") && userType == StringOr(user.value.userType, "student")
        && classId == (if user.value.classId == Some(0) then None else user.value.classId)
    {
      if user.Some? {
        var u := user.value;
        email := StringOr(u.email, "");
        username := StringOr(u.username, "");
        phone := StringOr(u.phone, "");
        classId := if u.classId == Some(0) then None else u.classId;
        userType := StringOr(u.userType, "student");
      }
      loading := false;
    }

    method ClassesLoaded(fetched: Option<seq<ClassRow>>)
      modifies this`classes
      ensures classes == ClassOptions(fetched)
    {
      classes := ClassOptions(fetched);
    }

    /** `validate()`: the recorded errors, and whether there are none. */
    method Validate() returns (ok: bool)
      modifies this`errors
      ensures errors == Errors(username, phone)
      ensures ok <==> errors == map[]
      ensures ok <==> Passes(username, phone)
    {
      var newErrors;
      newErrors, ok := CheckFields(username, phone);
      errors := newErrors;
    }

    /** `handleSave()`: an update is sent exactly when the form passes validation. */
    method HandleSave()
      modifies this`errors, this`sent
      ensures errors == Errors(username, phone)
      ensures !Passes(username, phone) ==> sent == old(sent)
      ensures Passes(username, phone) ==> sent == old(sent) + [PayloadOf(username, phone, classId, userType)]
    {
      // `validate()`
      var newErrors, ok := CheckFields(username, phone);
      errors := newErrors;
      if !ok {
        return;
      }
      assert Passes(username, phone);
      var payload := PayloadOf(username, phone, classId, userType);
      var shown := errors;
      sent := sent + [payload];
      assert errors == shown;
    }
  }
}
