/** Validation of a Land document against the Land schema of the land
    registry: required fields, the pincode and phone patterns, the enums,
    the non-negative numbers and the price that is required exactly while a
    land is pending sale. As in Mongoose, a failed validation yields one
    message per failing path. */
module LandSchema {
  import opened Common
  import opened Records

  /** The schema paths that carry validators. */
  datatype Path =
    | Owner | UserName | UserEmail | UserPhone
    | Title | Description
    | Address | City | State | Pincode
    | AreaValue | AreaUnit | PropertyType
    | DocumentId(index: nat)
    | Status | Price

  /** `/^\d{6}$/` */
  predicate PincodeOk(s: string) {
    |s| == 6 && forall i :: 0 <= i < |s| ==> IsDigit(s[i])
  }

  /** `/^[6-9]\d{9}$/` */
  predicate PhoneOk(s: string) {
    |s| == 10 && '6' <= s[0] <= '9' && forall i :: 1 <= i < |s| ==> IsDigit(s[i])
  }

  /** Mongoose's default message for a value outside an enum. */
  function EnumMessage(value: string, path: string): string {
    "`" + value + "` is not a valid enum value for path `" + path + "`."
  }

  function Required(v: string, message: string): Option<string> {
    if v == "" then Some(message) else None
  }

  /** The message the validators of path `p` produce for `l`, if any; the
      `required` validator runs first. */
  function Check(l: Land, p: Path): Option<string> {
    match p
    case Owner => Required(l.owner, "Owner ID is required")
    case UserName => Required(l.userDetails.name, "User name is required")
    case UserEmail => Required(l.userDetails.email, "User email is required")
    case UserPhone =>
      if l.userDetails.phoneNumber == "" then Some("User phone number is required")
      else if !PhoneOk(l.userDetails.phoneNumber) then Some("Invalid phone number format")
      else None
    case Title => Required(l.title, "Land title is required")
    case Description => Required(l.description, "Description is required")
    case Address => Required(l.location.address, "Address is required")
    case City => Required(l.location.city, "City is required")
    case State => Required(l.location.state, "State is required")
    case Pincode =>
      if l.location.pincode == "" then Some("Pincode is required")
      else if !PincodeOk(l.location.pincode) then Some("Pincode must be 6 digits")
      else None
    case AreaValue =>
      if l.area.value.None? then Some("Area value is required")
      else if l.area.value.value < 0 then Some("Area cannot be negative")
      else None
    case AreaUnit =>
      if l.area.unit == "" then Some("Area unit is required")
      else if l.area.unit !in AreaUnits then Some(EnumMessage(l.area.unit, "area.unit"))
      else None
    case PropertyType =>
      if l.propertyType == "" then Some("Property type is required")
      else if l.propertyType !in PropertyTypes then Some(EnumMessage(l.propertyType, "propertyType"))
      else None
    case DocumentId(i) =>
      if i < |l.documentIds| && l.documentIds[i] == "" then Some("Document ID is required") else None
    case Status =>
      if l.status == "" then Some("Status is required")
      else if l.status !in LandStatuses then Some(EnumMessage(l.status, "status"))
      else None
    case Price =>
      if l.price.None? && l.status == "pending" then Some("Path `price` is required.")
      else if l.price.Some? && l.price.value < 0 then Some("Price cannot be negative")
      else None
  }

  /** Every path that can fail for `l`. */
  function Paths(l: Land): set<Path> {
    {Owner, UserName, UserEmail, UserPhone, Title, Description, Address, City, State,
     Pincode, AreaValue, AreaUnit, PropertyType, Status, Price}
    + set i | 0 <= i < |l.documentIds| :: DocumentId(i)
  }

  /** The declarative reading of the schema. */
  predicate ValidLand(l: Land) {
    && l.owner != ""
    && l.userDetails.name != ""
    && l.userDetails.email != ""
    && PhoneOk(l.userDetails.phoneNumber)
    && l.title != ""
    && l.description != ""
    && l.location.address != ""
    && l.location.city != ""
    && l.location.state != ""
    && PincodeOk(l.location.pincode)
    && l.area.value.Some? && l.area.value.value >= 0
    && l.area.unit in AreaUnits
    && l.propertyType in PropertyTypes
    && (forall i :: 0 <= i < |l.documentIds| ==> l.documentIds[i] != "")
    && l.status in LandStatuses
    && (l.status == "pending" ==> l.price.Some?)
    && (l.price.Some? ==> l.price.value >= 0)
  }

  lemma CheckOutsidePaths(l: Land, p: Path)
    ensures p !in Paths(l) ==> Check(l, p).None?
  {
    if p.DocumentId? && p.index < |l.documentIds| {
      assert p in Paths(l);
    }
  }

  lemma ValidPassesEveryCheck(l: Land, p: Path)
    requires ValidLand(l)
    ensures Check(l, p).None?
  {
    assert "" !in AreaUnits && "" !in PropertyTypes && "" !in LandStatuses;
  }

  lemma PassingEveryCheckIsValid(l: Land)
    requires forall p :: Check(l, p).None?
    ensures ValidLand(l)
  {
    PassingChecksPeople(l, Check(l, Owner), Check(l, UserName), Check(l, UserEmail), Check(l, UserPhone));
    PassingChecksPlace(l, Check(l, Title), Check(l, Description), Check(l, Address), Check(l, City), Check(l, State), Check(l, Pincode));
    PassingChecksTerms(l, Check(l, AreaValue), Check(l, AreaUnit), Check(l, PropertyType), Check(l, Status), Check(l, Price));
    forall i | 0 <= i < |l.documentIds| ensures l.documentIds[i] != "" {
      assert Check(l, DocumentId(i)).None?;
    }
  }

  lemma PassingChecksPeople(l: Land, a: Option<string>, b: Option<string>, c: Option<string>, d: Option<string>)
    requires a == Check(l, Owner) && b == Check(l, UserName) && c == Check(l, UserEmail) && d == Check(l, UserPhone)
    requires a.None? && b.None? && c.None? && d.None?
    ensures l.owner != "" && l.userDetails.name != "" && l.userDetails.email != ""
    ensures PhoneOk(l.userDetails.phoneNumber)
  {
  }

  lemma PassingChecksPlace(l: Land, a: Option<string>, b: Option<string>, c: Option<string>, d: Option<string>, e: Option<string>, f: Option<string>)
    requires a == Check(l, Title) && b == Check(l, Description) && c == Check(l, Address)
    requires d == Check(l, City) && e == Check(l, State) && f == Check(l, Pincode)
    requires a.None? && b.None? && c.None? && d.None? && e.None? && f.None?
    ensures l.title != "" && l.description != ""
    ensures l.location.address != "" && l.location.city != "" && l.location.state != ""
    ensures PincodeOk(l.location.pincode)
  {
  }

  lemma PassingChecksTerms(l: Land, a: Option<string>, b: Option<string>, c: Option<string>, d: Option<string>, e: Option<string>)
    requires a == Check(l, AreaValue) && b == Check(l, AreaUnit) && c == Check(l, PropertyType)
    requires d == Check(l, Status) && e == Check(l, Price)
    requires a.None? && b.None? && c.None? && d.None? && e.None?
    ensures l.area.value.Some? && l.area.value.value >= 0
    ensures l.area.unit in AreaUnits && l.propertyType in PropertyTypes && l.status in LandStatuses
    ensures l.status == "pending" ==> l.price.Some?
    ensures l.price.Some? ==> l.price.value >= 0
  {
  }

  function Errors(l: Land): map<Path, string> {
    map p | p in Paths(l) && Check(l, p).Some? :: Check(l, p).value
  }

  lemma ErrorsFacts(l: Land)
    ensures forall p :: p in Errors(l) <==> Check(l, p).Some?
    ensures Errors(l) == map[] <==> ValidLand(l)
  {
    var errors := Errors(l);
    forall p | Check(l, p).Some? ensures p in errors {
      CheckOutsidePaths(l, p);
    }
    if ValidLand(l) {
      forall p ensures Check(l, p).None? {
        ValidPassesEveryCheck(l, p);
      }
      assert errors == map[];
    } else if errors == map[] {
      forall p ensures Check(l, p).None? {
        assert p !in errors;
      }
      PassingEveryCheckIsValid(l);
    }
  }

  /** `document.validate()`: the failing paths with their messages. It is
      empty exactly when the land satisfies the schema, and it holds an
      entry for every path whose validators fail and for no other. */
  function Validate(l: Land): (errors: map<Path, string>)
    ensures errors == map[] <==> ValidLand(l)
    ensures forall p :: p in errors <==> Check(l, p).Some?
    ensures forall p :: p in errors ==> errors[p] == Check(l, p).value
  {
    ErrorsFacts(l);
    Errors(l)
  }

  /** A pending land without a price fails on `price`. */
  lemma PendingNeedsPrice(l: Land)
    requires l.status == "pending" && l.price.None?
    ensures Price in Validate(l)
    ensures !ValidLand(l)
  {
  }

  /** Outside `pending`, a missing price is no error. */
  lemma PriceOptionalUnlessPending(l: Land)
    requires l.status != "pending" && l.price.None?
    ensures Price !in Validate(l)
  {
  }

  /** The pincode is exactly six digits and the phone a digit 6-9 followed
      by nine digits. */
  lemma PatternRules(l: Land)
    ensures Pincode in Validate(l) <==> !PincodeOk(l.location.pincode)
    ensures UserPhone in Validate(l) <==> !PhoneOk(l.userDetails.phoneNumber)
  {
  }

  /** The area value must be given and neither it nor a given price may be
      negative. */
  lemma NumberRules(l: Land)
    ensures AreaValue in Validate(l) <==> (l.area.value.None? || l.area.value.value < 0)
    ensures l.price.Some? && l.price.value < 0 ==> Price in Validate(l)
  {
  }

  /** Unit, property type and status must come from their enums. */
  lemma EnumRules(l: Land)
    ensures AreaUnit in Validate(l) <==> l.area.unit !in AreaUnits
    ensures PropertyType in Validate(l) <==> l.propertyType !in PropertyTypes
    ensures Status in Validate(l) <==> l.status !in LandStatuses
  {
    assert "" !in AreaUnits && "" !in PropertyTypes && "" !in LandStatuses;
  }
}
