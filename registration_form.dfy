/**
 * The values of the registration form, the rules that gate its submission,
 * and the two selector handlers that turn a selection into a field value.
 * Each required string rule accepts any non-empty string (no trimming);
 * the activity rule asks for at least one activity whose value and label
 * are both non-empty. The economic-activity single choice is not checked.
 */
module RegistrationForm {
  import opened Wrappers
  import opened CountryDirectory

  /** A `{ value, label }` choice of the static activity list. */
  datatype Choice = Choice(value: string, caption: string)

  /** The phone-code field: a selected option, or the `{ code: "" }` a cleared selector leaves. */
  datatype PhoneCodeField = Selected(option: PhoneCodeOption) | Cleared {
    function Code(): string {
      match this
      case Selected(o) => o.code
      case Cleared => ""
    }
  }

  datatype FormValues = FormValues(
    activityEconomics: Choice,
    activities: seq<Choice>,
    phoneCode: PhoneCodeField,
    phone: string,
    address: string,
    country: string)

  /** The fields the schema checks, each reported separately. */
  datatype Field = Activities | PhoneCode | Phone | Address | OriginCountry

  /** The static economic-activity table; every entry passes the per-activity rule. */
  function ActivityOptions(): (table: seq<Choice>)
    ensures |table| == 3
    ensures forall a :: a in table ==> ActivityValid(a)
  {
    [
      Choice("hoteleria", "Hotelería"),
      Choice("restaurantes", "Restaurantes"),
      Choice("tour-operator", "Tour Operador")
    ]
  }

  /** The values the form starts from: nothing chosen or typed, the phone code pre-set to "+57". */
  function InitialValues(): (v: FormValues)
    ensures v.activities == [] && v.phone == "" && v.address == "" && v.country == ""
    ensures v.phoneCode.Code() == "+57"
  {
    FormValues(Choice("", ""), [], Selected(PhoneCodeOption("+57", "+57", "")), "", "", "")
  }

  /** A single activity passes: both its value and its label (`caption`; `label` is a reserved word) are required strings. */
  predicate ActivityValid(a: Choice) {
    a.value != "" && a.caption != ""
  }

  /** Whether the rule for field `f` accepts the values `v`. */
  predicate FieldValid(v: FormValues, f: Field) {
    match f
    case Activities => |v.activities| >= 1 && forall a :: a in v.activities ==> ActivityValid(a)
    case PhoneCode => v.phoneCode.Code() != ""
    case Phone => v.phone != ""
    case Address => v.address != ""
    case OriginCountry => v.country != ""
  }

  /** The fields the schema reports, all of them at once. */
  function Errors(v: FormValues): (r: set<Field>)
    ensures forall f :: f in r <==> !FieldValid(v, f)
  {
    set f | f in {Activities, PhoneCode, Phone, Address, OriginCountry} && !FieldValid(v, f)
  }

  /** The five fields are all the fields the schema checks. */
  lemma EveryField(v: FormValues)
    ensures (forall f :: FieldValid(v, f)) <==>
      (FieldValid(v, Activities) && FieldValid(v, PhoneCode) && FieldValid(v, Phone)
       && FieldValid(v, Address) && FieldValid(v, OriginCountry))
  {
    if FieldValid(v, Activities) && FieldValid(v, PhoneCode) && FieldValid(v, Phone)
       && FieldValid(v, Address) && FieldValid(v, OriginCountry) {
      forall f ensures FieldValid(v, f) {
        match f
        case Activities =>
        case PhoneCode =>
        case Phone =>
        case Address =>
        case OriginCountry =>
      }
    }
  }

  /** Submission gate: every rule of the schema holds. */
  predicate IsValid(v: FormValues)
    ensures IsValid(v) <==> forall f :: FieldValid(v, f)
  {
    EveryField(v);
    && |v.activities| >= 1
    && (forall a :: a in v.activities ==> ActivityValid(a))
    && v.phoneCode.Code() != ""
    && v.phone != ""
    && v.address != ""
    && v.country != ""
  }

  /** The message shown under a field whose rule fails (for the activity list: when it is empty). */
  function Message(f: Field): (m: string)
    ensures m != ""
  {
    match f
    case Activities => "Selecciona al menos una actividad económica"
    case PhoneCode => "Código de país es requerido"
    case Phone => "Número de teléfono es requerido"
    case Address => "Dirección es requerida"
    case OriginCountry => "País de origen es requerido"
  }

  /** Change handler of the phone-code selector: `option || { code: "" }`. */
  function OnPhoneCodeChange(v: FormValues, selection: Option<PhoneCodeOption>): (r: FormValues)
    ensures r.phoneCode.Code() == if selection.Some? then selection.value.code else ""
    ensures r == v.(phoneCode := r.phoneCode)
  {
    v.(phoneCode := match selection { case Some(o) => Selected(o) case None => Cleared })
  }

  /** Change handler of the country selector: `option?.value || ""`. */
  function OnCountryChange(v: FormValues, selection: Option<CountryOption>): (r: FormValues)
    ensures r.country == if selection.Some? then selection.value.value else ""
    ensures r == v.(country := r.country)
  {
    v.(country := match selection { case Some(o) => o.value case None => "" })
  }

  /** The submission gate holds exactly when no field is reported. */
  lemma ValidIffNoErrors(v: FormValues)
    ensures IsValid(v) <==> Errors(v) == {}
  {
    if !IsValid(v) {
      if !FieldValid(v, Activities) { assert Activities in Errors(v); }
      else if !FieldValid(v, PhoneCode) { assert PhoneCode in Errors(v); }
      else if !FieldValid(v, Phone) { assert Phone in Errors(v); }
      else if !FieldValid(v, Address) { assert Address in Errors(v); }
      else { assert OriginCountry in Errors(v); }
    }
  }

  /** Clearing the phone-code selector makes the form fail on that field. */
  lemma ClearedPhoneCodeFails(v: FormValues)
    ensures PhoneCode in Errors(OnPhoneCodeChange(v, None))
    ensures !IsValid(OnPhoneCodeChange(v, None))
  {
    ValidIffNoErrors(OnPhoneCodeChange(v, None));
  }

  /** A phone-code option from the lookup passes exactly when its record has a dial code. */
  lemma LookedUpPhoneCodePasses(v: FormValues, c: Country)
    ensures PhoneCode !in Errors(OnPhoneCodeChange(v, Some(ToPhoneCodeOption(c)))) <==> DialCode(c) != ""
  {
  }

  /** Clearing the country selector fails; a country option from the lookup passes exactly when its name is non-empty. */
  lemma CountrySelectionRule(v: FormValues, c: Country)
    ensures OriginCountry in Errors(OnCountryChange(v, None))
    ensures OriginCountry !in Errors(OnCountryChange(v, Some(ToCountryOption(c)))) <==> c.name.common != ""
  {
  }

  /** Any non-empty choice from the activity table satisfies the activity rule. */
  lemma {:induction false} ActivityChoicesPass(v: FormValues, chosen: seq<Choice>)
    requires |chosen| >= 1
    requires forall a :: a in chosen ==> a in ActivityOptions()
    ensures Activities !in Errors(v.(activities := chosen))
  {
    forall a | a in chosen
      ensures ActivityValid(a)
    {
      assert a in ActivityOptions();
    }
  }

  /** The starting values fail on every field except the pre-filled phone code. */
  lemma InitialValuesErrors()
    ensures Errors(InitialValues()) == {Activities, Phone, Address, OriginCountry}
    ensures !IsValid(InitialValues())
  {
    assert FieldValid(InitialValues(), PhoneCode);
    ValidIffNoErrors(InitialValues());
  }

  /** Values that fill every required field pass. */
  lemma CompleteValuesPass()
    ensures var v := FormValues(Choice("hoteleria", "Hotelería"), [Choice("hoteleria", "Hotelería")],
                                Selected(PhoneCodeOption("+57", "+57", "")), "3000000000", "Calle 1", "Colombia");
      IsValid(v) && Errors(v) == {}
  {
    var v := FormValues(Choice("hoteleria", "Hotelería"), [Choice("hoteleria", "Hotelería")],
                        Selected(PhoneCodeOption("+57", "+57", "")), "3000000000", "Calle 1", "Colombia");
    ValidIffNoErrors(v);
  }
}
