/** The request form's schema: ten fields, each with its own rule, checked
    all together so that every failing field is reported. The validation
    instant `now` (milliseconds) is a parameter, and so is the email syntax
    check, which is taken as given. */
module Validation {
  import opened JsValues

  /** The ten fields of the schema, in schema order. */
  datatype FieldName =
    | Name | Email | Phone | Datetime | Location
    | PartySize | BudgetRange | Pillars | VibeTags | Notes

  const SchemaFields: seq<FieldName> :=
    [Name, Email, Phone, Datetime, Location, PartySize, BudgetRange, Pillars, VibeTags, Notes]

  /** The body as submitted. `datetime` holds the instant its string parses
      to (Malformed when it parses to NaN); `partySize` holds the number the
      field coerces to (Absent and Malformed both coerce to NaN). */
  datatype RawBody = RawBody(
    name: Raw<string>,
    email: Raw<string>,
    phone: Raw<string>,
    datetime: Raw<int>,
    location: Raw<string>,
    partySize: Raw<int>,
    budgetRange: Raw<string>,
    pillars: Raw<seq<string>>,
    vibeTags: Raw<seq<string>>,
    notes: Raw<string>)

  /** A decoded JSON body: an object, or some other JSON value. */
  datatype Submission = NotAnObject | Object(body: RawBody)

  /** A request that passed the schema. */
  datatype Request = Request(
    name: string,
    email: string,
    phone: string,
    datetime: int,
    location: string,
    partySize: int,
    budgetRange: string,
    pillars: seq<string>,
    vibeTags: seq<string>,
    notes: Option<string>)

  const HourMs := 60 * 60 * 1000
  /** How far ahead of the validation instant the event must be. */
  const MinLeadMs := 48 * HourMs
  const MinPartySize := 1
  const MaxPartySize := 10000

  /** A string field present with at least `n` UTF-16 code units. */
  predicate MinLength(v: Raw<string>, n: nat)
  {
    v.Present? && Utf16Length(v.value) >= n
  }

  /** Whether field `f` holds a well-typed value. */
  predicate Supplied(b: RawBody, f: FieldName)
  {
    match f
    case Name => b.name.Present?
    case Email => b.email.Present?
    case Phone => b.phone.Present?
    case Datetime => b.datetime.Present?
    case Location => b.location.Present?
    case PartySize => b.partySize.Present?
    case BudgetRange => b.budgetRange.Present?
    case Pillars => b.pillars.Present?
    case VibeTags => b.vibeTags.Present?
    case Notes => b.notes.Present?
  }

  /** The rule of one field. Every field but the notes is required; the notes
      may be left out. */
  predicate FieldOk(b: RawBody, f: FieldName, now: int, isEmail: string -> bool): (ok: bool)
    ensures ok && f != Notes ==> Supplied(b, f)
    ensures f == Notes && b.notes.Absent? ==> ok
  {
    match f
    case Name => MinLength(b.name, 2)
    case Email => b.email.Present? && isEmail(b.email.value)
    case Phone => MinLength(b.phone, 10)
    case Datetime => b.datetime.Present? && b.datetime.value >= now + MinLeadMs
    case Location => MinLength(b.location, 2)
    case PartySize => b.partySize.Present? && MinPartySize <= b.partySize.value <= MaxPartySize
    case BudgetRange => MinLength(b.budgetRange, 1)
    case Pillars => b.pillars.Present? && |b.pillars.value| >= 1
    case VibeTags => b.vibeTags.Present?
    case Notes => !b.notes.Malformed?
  }

  /** The whole body passes: every field's rule holds. */
  predicate Valid(b: RawBody, now: int, isEmail: string -> bool): (ok: bool)
    ensures ok <==> FailingFields(b, SchemaFields, now, isEmail) == []
  {
    var failing := FailingFields(b, SchemaFields, now, isEmail);
    assert failing != [] ==> failing[0] in failing;
    SchemaFieldsListEvery();
    forall f :: FieldOk(b, f, now, isEmail)
  }

  lemma SchemaFieldsComplete(f: FieldName)
    ensures f in SchemaFields
  {
  }

  lemma SchemaFieldsListEvery()
    ensures forall f :: f in SchemaFields
  {
    forall f ensures f in SchemaFields { SchemaFieldsComplete(f); }
  }

  /** The fields among `fields` whose rule fails, in order. */
  function FailingFields(b: RawBody, fields: seq<FieldName>, now: int, isEmail: string -> bool): (r: seq<FieldName>)
    ensures forall f :: f in r <==> f in fields && !FieldOk(b, f, now, isEmail)
    ensures |r| <= |fields|
  {
    if fields == [] then []
    else
      var rest := FailingFields(b, fields[1..], now, isEmail);
      if FieldOk(b, fields[0], now, isEmail) then rest else [fields[0]] + rest
  }

  /** `requestFormSchema.safeParse(body)` at the instant `now`: the typed
      request when every rule holds, otherwise all the failing fields (none
      when the body is not an object at all). */
  function Parse(s: Submission, now: int, isEmail: string -> bool): (r: Result<Request, seq<FieldName>>)
    ensures r.Ok? <==> s.Object? && Valid(s.body, now, isEmail)
    ensures r.Err? && s.Object? ==>
              r.error != [] && forall f :: f in r.error <==> !FieldOk(s.body, f, now, isEmail)
    ensures r.Err? && s.NotAnObject? ==> r.error == []
    // The parsed request carries the submitted values unchanged.
    ensures r.Ok? ==>
              var b := s.body;
              && b.name == Present(r.value.name) && b.email == Present(r.value.email)
              && b.phone == Present(r.value.phone) && b.datetime == Present(r.value.datetime)
              && b.location == Present(r.value.location) && b.partySize == Present(r.value.partySize)
              && b.budgetRange == Present(r.value.budgetRange) && b.pillars == Present(r.value.pillars)
              && b.vibeTags == Present(r.value.vibeTags)
              && (b.notes.Absent? <==> r.value.notes.None?)
              && (b.notes.Present? ==> r.value.notes == Some(b.notes.value))
  {
    match s
    case NotAnObject => Err([])
    case Object(b) =>
      var failing := FailingFields(b, SchemaFields, now, isEmail);
      if failing == [] then
        assert forall f :: FieldOk(b, f, now, isEmail) by {
          forall f ensures FieldOk(b, f, now, isEmail) { SchemaFieldsComplete(f); }
        }
        assert FieldOk(b, Name, now, isEmail) && FieldOk(b, Email, now, isEmail);
        assert FieldOk(b, Phone, now, isEmail) && FieldOk(b, Datetime, now, isEmail);
        assert FieldOk(b, Location, now, isEmail) && FieldOk(b, PartySize, now, isEmail);
        assert FieldOk(b, BudgetRange, now, isEmail) && FieldOk(b, Pillars, now, isEmail);
        assert FieldOk(b, VibeTags, now, isEmail) && FieldOk(b, Notes, now, isEmail);
        Ok(Request(b.name.value, b.email.value, b.phone.value, b.datetime.value, b.location.value,
                   b.partySize.value, b.budgetRange.value, b.pillars.value, b.vibeTags.value,
                   if b.notes.Present? then Some(b.notes.value) else None))
      else
        assert forall f :: f in failing <==> !FieldOk(b, f, now, isEmail) by {
          forall f ensures f in failing <==> !FieldOk(b, f, now, isEmail) { SchemaFieldsComplete(f); }
        }
        assert failing[0] in failing && !FieldOk(b, failing[0], now, isEmail);
        Err(failing)
  }

  // -----------------------------------------------------------------------
  // The rules one field at a time
  // -----------------------------------------------------------------------

  /** A name needs two code units: one (BMP) character is refused, two are
      accepted. */
  lemma NameNeedsTwoCharacters(b: RawBody, c: char, d: char, now: int, isEmail: string -> bool)
    requires c as int <= 0xFFFF && d as int <= 0xFFFF
    ensures !FieldOk(b.(name := Present([c])), Name, now, isEmail)
    ensures FieldOk(b.(name := Present([c, d])), Name, now, isEmail)
  {
    Utf16LengthBounds([c]);
    Utf16LengthBounds([c, d]);
  }

  /** The phone rule is a length of ten, with no format check: any ten
      characters pass, and nine BMP characters fail. */
  lemma PhoneIsLengthOnly(b: RawBody, phone: string, now: int, isEmail: string -> bool)
    ensures |phone| >= 10 ==> FieldOk(b.(phone := Present(phone)), Phone, now, isEmail)
    ensures |phone| == 9 && (forall i :: 0 <= i < |phone| ==> phone[i] as int <= 0xFFFF) ==>
              !FieldOk(b.(phone := Present(phone)), Phone, now, isEmail)
  {
    Utf16LengthBounds(phone);
  }

  /** The 48-hour rule is inclusive: exactly 48 hours ahead passes, one
      millisecond less fails, and so does one hour ahead. An unparseable date
      fails. */
  lemma DatetimeBoundary(b: RawBody, now: int, isEmail: string -> bool)
    ensures FieldOk(b.(datetime := Present(now + MinLeadMs)), Datetime, now, isEmail)
    ensures !FieldOk(b.(datetime := Present(now + MinLeadMs - 1)), Datetime, now, isEmail)
    ensures !FieldOk(b.(datetime := Present(now + HourMs)), Datetime, now, isEmail)
    ensures !FieldOk(b.(datetime := Malformed), Datetime, now, isEmail)
  {
  }

  /** Party sizes 1 and 10000 pass; 0 and 10001 fail. */
  lemma PartySizeBounds(b: RawBody, now: int, isEmail: string -> bool)
    ensures FieldOk(b.(partySize := Present(1)), PartySize, now, isEmail)
    ensures FieldOk(b.(partySize := Present(10000)), PartySize, now, isEmail)
    ensures !FieldOk(b.(partySize := Present(0)), PartySize, now, isEmail)
    ensures !FieldOk(b.(partySize := Present(10001)), PartySize, now, isEmail)
  {
  }

  /** Any non-empty budget label passes, listed in the budget table or not;
      the empty label fails. */
  lemma BudgetRangeIsNonEmptyOnly(b: RawBody, budget: string, now: int, isEmail: string -> bool)
    ensures FieldOk(b.(budgetRange := Present(budget)), BudgetRange, now, isEmail) <==> budget != []
  {
    Utf16LengthBounds(budget);
  }

  /** Pillars need one element of any text; vibe tags may be empty. */
  lemma ListRules(b: RawBody, pillars: seq<string>, tags: seq<string>, now: int, isEmail: string -> bool)
    ensures FieldOk(b.(pillars := Present(pillars)), Pillars, now, isEmail) <==> pillars != []
    ensures FieldOk(b.(vibeTags := Present(tags)), VibeTags, now, isEmail)
  {
  }

  /** Whether notes are present or absent never changes the verdict. */
  lemma NotesNeverDecide(b: RawBody, notes: string, now: int, isEmail: string -> bool)
    ensures Valid(b.(notes := Absent), now, isEmail) <==> Valid(b.(notes := Present(notes)), now, isEmail)
  {
    var b1, b2 := b.(notes := Absent), b.(notes := Present(notes));
    forall f ensures FieldOk(b1, f, now, isEmail) <==> FieldOk(b2, f, now, isEmail) {
    }
  }

  /** The sample request of the validator's own tests, with an event 72 hours
      ahead, passes. */
  lemma SampleRequestPasses(now: int, isEmail: string -> bool)
    requires isEmail("john@example.com")
    ensures Valid(SampleBody(now + 72 * HourMs), now, isEmail)
  {
    var b := SampleBody(now + 72 * HourMs);
    forall f ensures FieldOk(b, f, now, isEmail) {
      match f
      case Name => Utf16LengthBounds(b.name.value);
      case Phone => Utf16LengthBounds(b.phone.value);
      case Location => Utf16LengthBounds(b.location.value);
      case BudgetRange => Utf16LengthBounds(b.budgetRange.value);
      case _ =>
    }
  }

  function SampleBody(datetime: int): RawBody
  {
    RawBody(Present("John Doe"), Present("john@example.com"), Present("1234567890"),
            Present(datetime), Present("Los Angeles"), Present(50), Present("$5,000 - $10,000"),
            Present(["moments"]), Present(["Upscale"]), Absent)
  }
}
