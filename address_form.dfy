/**
 * The pure logic of the address form screen (app/address-form.tsx): the form
 * record, the single-field update bound to every input, the ordered chain of
 * "required" checks run before saving, the decision to create or update an
 * address, and the edit-mode prefill from a stored address.
 */
module AddressForm {
  import opened Wrappers

  /** The seven text fields of the form. */
  datatype AddressFormData = AddressFormData(
    addressLabel: string,
    street: string,
    buildingNumber: string,
    apartmentNumber: string,
    city: string,
    postalCode: string,
    deliveryNote: string)

  /** The keys of `AddressFormData`, as `handleInputChange` receives them. */
  datatype Field = Label | Street | BuildingNumber | ApartmentNumber | City | PostalCode | DeliveryNote

  function Get(form: AddressFormData, f: Field): string {
    match f
    case Label => form.addressLabel
    case Street => form.street
    case BuildingNumber => form.buildingNumber
    case ApartmentNumber => form.apartmentNumber
    case City => form.city
    case PostalCode => form.postalCode
    case DeliveryNote => form.deliveryNote
  }

  /** The initial state of the form: every field empty. */
  function EmptyForm(): (form: AddressFormData)
    ensures forall f :: Get(form, f) == ""
  {
    AddressFormData("", "", "", "", "", "", "")
  }

  /** `handleInputChange(field, value)`: a copy of the form with one field replaced. */
  function HandleInputChange(form: AddressFormData, field: Field, value: string): (r: AddressFormData)
    ensures Get(r, field) == value
    ensures forall g :: g != field ==> Get(r, g) == Get(form, g)
  {
    match field
    case Label => form.(addressLabel := value)
    case Street => form.(street := value)
    case BuildingNumber => form.(buildingNumber := value)
    case ApartmentNumber => form.(apartmentNumber := value)
    case City => form.(city := value)
    case PostalCode => form.(postalCode := value)
    case DeliveryNote => form.(deliveryNote := value)
  }

  // ---------------------------------------------------------------- trimming

  /**
   * The characters `String.prototype.trim` removes: ECMAScript's WhiteSpace
   * (tab, vertical tab, form feed, space, no-break space, byte order mark and
   * the space separators) and LineTerminator (LF, CR, U+2028, U+2029).
   */
  predicate IsWhitespace(c: char) {
    c == '\t' || c == '\n' || c == '\U{000B}' || c == '\U{000C}' || c == '\r' || c == ' ' ||
    c == '\U{00A0}' || c == '\U{1680}' || ('\U{2000}' <= c <= '\U{200A}') ||
    c == '\U{2028}' || c == '\U{2029}' || c == '\U{202F}' || c == '\U{205F}' ||
    c == '\U{3000}' || c == '\U{FEFF}'
  }

  predicate AllWhitespace(s: string) {
    forall i :: 0 <= i < |s| ==> IsWhitespace(s[i])
  }

  /** `s` without its leading whitespace. */
  function TrimStart(s: string): (r: string)
    ensures |r| <= |s|
  {
    if s != [] && IsWhitespace(s[0]) then TrimStart(s[1..]) else s
  }

  /** `s` without its trailing whitespace. */
  function TrimEnd(s: string): (r: string)
    ensures |r| <= |s|
  {
    if s != [] && IsWhitespace(s[|s| - 1]) then TrimEnd(s[..|s| - 1]) else s
  }

  /** `s.trim()`: `s` without its leading and trailing whitespace. */
  function Trim(s: string): (r: string)
    ensures |r| <= |s|
  {
    TrimEnd(TrimStart(s))
  }

  /** `TrimStart` drops a whitespace-only prefix and stops at the first other character. */
  lemma {:induction false} TrimStartSpec(s: string)
    ensures var r := TrimStart(s);
      r == s[|s| - |r|..] && AllWhitespace(s[..|s| - |r|]) && (r == [] || !IsWhitespace(r[0]))
  {
    if s != [] && IsWhitespace(s[0]) {
      var r := TrimStart(s[1..]);
      TrimStartSpec(s[1..]);
      assert s[..|s| - |r|] == [s[0]] + s[1..][..|s| - 1 - |r|];
    }
  }

  /** `TrimEnd` drops a whitespace-only suffix and stops at the last other character. */
  lemma {:induction false} TrimEndSpec(s: string)
    ensures var r := TrimEnd(s);
      r == s[..|r|] && AllWhitespace(s[|r|..]) && (r == [] || !IsWhitespace(r[|r| - 1]))
  {
    if s != [] && IsWhitespace(s[|s| - 1]) {
      var r := TrimEnd(s[..|s| - 1]);
      TrimEndSpec(s[..|s| - 1]);
      assert s[|r|..] == s[..|s| - 1][|r|..] + [s[|s| - 1]];
    }
  }

  /**
   * The trimmed value is the slice of `s` left between a whitespace-only
   * prefix and a whitespace-only suffix, and it neither starts nor ends with
   * whitespace.
   */
  lemma TrimIsInnerSlice(s: string)
    ensures var r := Trim(s);
      exists i :: 0 <= i <= |s| - |r| && r == s[i..i + |r|] &&
                  AllWhitespace(s[..i]) && AllWhitespace(s[i + |r|..])
    ensures var r := Trim(s); r == [] || (!IsWhitespace(r[0]) && !IsWhitespace(r[|r| - 1]))
  {
    var t := TrimStart(s);
    var r := TrimEnd(t);
    TrimStartSpec(s);
    TrimEndSpec(t);
    var i := |s| - |t|;
    assert r == s[i..i + |r|] by {
      assert r == t[..|r|];
    }
    assert AllWhitespace(s[i + |r|..]) by {
      assert s[i + |r|..] == t[|r|..];
    }
    assert AllWhitespace(s[..i]);
  }

  /** Trimming leaves nothing exactly when the value is made of whitespace only. */
  lemma TrimEmptyIffWhitespace(s: string)
    ensures Trim(s) == "" <==> AllWhitespace(s)
  {
    var t := TrimStart(s);
    TrimStartSpec(s);
    TrimEndSpec(t);
    if Trim(s) == "" {
      assert AllWhitespace(t[|TrimEnd(t)|..]);
      assert s == s[..|s| - |t|] + t;
    }
  }

  /**
   * `!value.trim()`: the value is empty once trimmed, so a value counts as
   * missing exactly when it is made of whitespace only.
   */
  predicate Blank(value: string): (b: bool)
    ensures b <==> AllWhitespace(value)
  {
    TrimEmptyIffWhitespace(value);
    Trim(value) == ""
  }

  // ---------------------------------------------------------------- validation

  datatype Validation = Valid | Invalid(alert: string)

  /** `validateForm`: the first required field that is blank, in the screen's fixed order, is reported. */
  function ValidateForm(form: AddressFormData): (r: Validation)
    ensures r.Valid? <==>
      (!Blank(form.addressLabel) && !Blank(form.street) && !Blank(form.buildingNumber) &&
       !Blank(form.city) && !Blank(form.postalCode))
    ensures Blank(form.addressLabel) ==> r == Invalid("Address label is required")
  {
    if Blank(form.addressLabel) then Invalid("Address label is required")
    else if Blank(form.street) then Invalid("Street address is required")
    else if Blank(form.buildingNumber) then Invalid("Building number is required")
    else if Blank(form.city) then Invalid("City is required")
    else if Blank(form.postalCode) then Invalid("Postal code is required")
    else Valid
  }

  /** The fields `validateForm` checks, in the order it checks them. */
  const RequiredFields: seq<Field> := [Label, Street, BuildingNumber, City, PostalCode]

  predicate Required(f: Field) {
    f != ApartmentNumber && f != DeliveryNote
  }

  /** The alert shown when a required field is missing. */
  function RequiredMessage(f: Field): string
    requires Required(f)
  {
    match f
    case Label => "Address label is required"
    case Street => "Street address is required"
    case BuildingNumber => "Building number is required"
    case City => "City is required"
    case PostalCode => "Postal code is required"
  }

  /** Reference scan: the first field of `fields` whose value in `form` is blank. */
  function FirstBlank(form: AddressFormData, fields: seq<Field>): (r: Option<nat>)
    ensures r.None? <==> forall j :: 0 <= j < |fields| ==> !Blank(Get(form, fields[j]))
    ensures r.Some? ==> r.value < |fields| && Blank(Get(form, fields[r.value]))
    ensures r.Some? ==> forall j :: 0 <= j < r.value ==> !Blank(Get(form, fields[j]))
  {
    if fields == [] then None
    else if Blank(Get(form, fields[0])) then Some(0)
    else match FirstBlank(form, fields[1..])
      case None => None
      case Some(k) => Some(k + 1)
  }

  /**
   * `validateForm` reports exactly one alert, that of the first blank
   * required field in the order label, street, building number, city,
   * postal code, and accepts the form when there is none.
   */
  lemma ValidateReportsFirstBlank(form: AddressFormData)
    ensures var k := FirstBlank(form, RequiredFields);
      ValidateForm(form) == if k.None? then Valid else Invalid(RequiredMessage(RequiredFields[k.value]))
  {
    var k := FirstBlank(form, RequiredFields);
    assert RequiredFields[0] == Label && RequiredFields[1] == Street && RequiredFields[2] == BuildingNumber;
    assert RequiredFields[3] == City && RequiredFields[4] == PostalCode;
    if k.None? {
      assert !Blank(form.addressLabel) && !Blank(form.street) && !Blank(form.buildingNumber);
      assert !Blank(form.city) && !Blank(form.postalCode);
    } else if k.value >= 1 {
      assert !Blank(form.addressLabel);
      if k.value >= 2 {
        assert !Blank(form.street);
        if k.value >= 3 {
          assert !Blank(form.buildingNumber);
          if k.value == 4 {
            assert !Blank(form.city);
          }
        }
      }
    }
  }

  /** The form is accepted exactly when no required field is blank. */
  lemma ValidIffRequiredPresent(form: AddressFormData)
    ensures ValidateForm(form).Valid? <==> forall f :: Required(f) ==> !Blank(Get(form, f))
  {
    if ValidateForm(form).Invalid? {
      var f :| f in RequiredFields && Blank(Get(form, f));
    }
  }

  /** The apartment number and the delivery note never change the outcome. */
  lemma OptionalFieldsIgnored(form: AddressFormData, f: Field, value: string)
    requires !Required(f)
    ensures ValidateForm(HandleInputChange(form, f, value)) == ValidateForm(form)
  {
  }

  /** A required field holding only whitespace makes the form invalid. */
  lemma WhitespaceOnlyIsMissing(form: AddressFormData, f: Field, value: string)
    requires Required(f) && AllWhitespace(value)
    ensures ValidateForm(HandleInputChange(form, f, value)).Invalid?
  {
  }

  /** The empty form fails on its label first. */
  lemma EmptyFormNeedsLabel()
    ensures ValidateForm(EmptyForm()) == Invalid("Address label is required")
  {
    assert Blank(EmptyForm().addressLabel);
  }

  // ---------------------------------------------------------------- submission

  /** What `handleSubmit` asks the backend to do. */
  datatype SaveRequest = NoRequest | CreateAddress(data: AddressFormData) | UpdateAddress(id: string, data: AddressFormData)

  /**
   * `handleSubmit`: nothing is sent when validation fails; otherwise the
   * whole form is sent, as an update of address `id` in edit mode and as a
   * new address otherwise.
   */
  function HandleSubmit(form: AddressFormData, isEditing: bool, id: string): (r: SaveRequest)
    ensures r.NoRequest? <==> ValidateForm(form).Invalid?
    ensures r.CreateAddress? ==> !isEditing && r.data == form
    ensures r.UpdateAddress? ==> isEditing && r.id == id && r.data == form
  {
    if ValidateForm(form).Invalid? then NoRequest
    else if isEditing then UpdateAddress(id, form)
    else CreateAddress(form)
  }

  // ---------------------------------------------------------------- prefill

  /** The fields of a parsed stored address; `None` is a missing or null field. */
  datatype StoredAddress = StoredAddress(
    addressLabel: Option<string>,
    street: Option<string>,
    buildingNumber: Option<string>,
    apartmentNumber: Option<string>,
    city: Option<string>,
    postalCode: Option<string>,
    deliveryNote: Option<string>)

  function Lookup(a: StoredAddress, f: Field): Option<string> {
    match f
    case Label => a.addressLabel
    case Street => a.street
    case BuildingNumber => a.buildingNumber
    case ApartmentNumber => a.apartmentNumber
    case City => a.city
    case PostalCode => a.postalCode
    case DeliveryNote => a.deliveryNote
  }

  /** `value || ''` for a string-or-missing value. */
  function OrEmpty(v: Option<string>): (s: string)
    ensures v.Some? ==> s == v.value
    ensures v.None? ==> s == ""
  {
    if v.Some? && v.value != "" then v.value else ""
  }

  /** The form built from a stored address: each field copied, missing ones as `''`. */
  function Prefill(a: StoredAddress): (form: AddressFormData)
    ensures forall f :: Get(form, f) == OrEmpty(Lookup(a, f))
  {
    AddressFormData(OrEmpty(a.addressLabel), OrEmpty(a.street), OrEmpty(a.buildingNumber),
      OrEmpty(a.apartmentNumber), OrEmpty(a.city), OrEmpty(a.postalCode), OrEmpty(a.deliveryNote))
  }

  /**
   * The edit-mode effect: with `mode == 'edit'` and address data that parsed,
   * the form is replaced by the prefill; otherwise (not editing, no data, or
   * data that failed to parse, modelled as `None`) it is left as it was.
   */
  function PrefillEffect(isEditing: bool, parsed: Option<StoredAddress>, current: AddressFormData): (r: AddressFormData)
    ensures isEditing && parsed.Some? ==> forall f :: Get(r, f) == OrEmpty(Lookup(parsed.value, f))
    ensures !(isEditing && parsed.Some?) ==> r == current
  {
    if isEditing && parsed.Some? then Prefill(parsed.value) else current
  }

  /** The stored form of a form: every field present. */
  function Stored(form: AddressFormData): (a: StoredAddress)
    ensures forall f :: Lookup(a, f) == Some(Get(form, f))
  {
    StoredAddress(Some(form.addressLabel), Some(form.street), Some(form.buildingNumber),
      Some(form.apartmentNumber), Some(form.city), Some(form.postalCode), Some(form.deliveryNote))
  }

  /** Opening a saved form in edit mode gives back the same form. */
  lemma {:induction false} PrefillRoundTrip(form: AddressFormData)
    ensures Prefill(Stored(form)) == form
  {
    var r := Prefill(Stored(form));
    assert forall f :: Get(r, f) == Get(form, f);
    assert Get(r, Label) == Get(form, Label) && Get(r, Street) == Get(form, Street);
    assert Get(r, BuildingNumber) == Get(form, BuildingNumber) && Get(r, ApartmentNumber) == Get(form, ApartmentNumber);
    assert Get(r, City) == Get(form, City) && Get(r, PostalCode) == Get(form, PostalCode);
    assert Get(r, DeliveryNote) == Get(form, DeliveryNote);
  }
}
