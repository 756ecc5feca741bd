/**
 * A person in the directory: looked up once at construction, then classified
 * on demand (affiliation tier, service eligibility, sponsorship type), each
 * derived field filled in by a populate call that leaves a non-empty field alone.
 */
module MCommunityUser {
  import opened Text
  import opened MCommunityBase

  const PeopleBase := "ou=People,dc=umich,dc=edu"
  const UserAttributes: seq<string> :=
    ["*", "umichServiceEntitlement", "entityid", "umichDisplaySN", "umichNameOfRecord", "displayName"]
  const MailDomain := "@umich.edu"
  const InstRolesKey := "umichInstRoles"
  const EntitlementKey := "umichServiceEntitlement"
  const NoEntitlementsMessage :=
    "LDAP did not return any uSE for this user. Check to make sure the app you are using has scopes for uSE."

  /** The search a user lookup issues for `uniqname`. */
  function UserQuery(uniqname: string): Query {
    Query(PeopleBase, "uid=" + uniqname, UserAttributes)
  }

  /** The error recorded (not raised) when no person matches. */
  function UserNotFound(uniqname: string): Error {
    NameError("No user found in MCommunity for " + uniqname)
  }

  // ---------------------------------------------------------------- affiliation tiers

  /** The institutional roles, highest precedence first. */
  const Tiers: seq<string> :=
    ["Faculty", "RegularStaff", "Student", "TemporaryStaff", "SponsoredAffiliate", "Retiree", "Alumni"]
  const NoTier := "NA"
  const Sponsored := "SponsoredAffiliate"

  /** The precedence chain of `populate_highest_affiliation` on the joined role string. */
  function HighestTier(role: string): (r: string)
    ensures r == NoTier || r in Tiers
    ensures r == NoTier <==> forall k :: 0 <= k < |Tiers| ==> !Contains(role, Tiers[k])
    ensures forall k :: 0 <= k < |Tiers| && r == Tiers[k] ==>
      Contains(role, r) && forall j :: 0 <= j < k ==> !Contains(role, Tiers[j])
  {
    if Contains(role, "Faculty") then "Faculty"
    else if Contains(role, "RegularStaff") then "RegularStaff"
    else if Contains(role, "Student") then "Student"
    else if Contains(role, "TemporaryStaff") then "TemporaryStaff"
    else if Contains(role, "SponsoredAffiliate") then "SponsoredAffiliate"
    else if Contains(role, "Retiree") then "Retiree"
    else if Contains(role, "Alumni") then "Alumni"
    else NoTier
  }

  /** `' '.join(affiliations)`: the list joined by spaces, or a plain string's characters joined by spaces. */
  function RoleText(affiliations: Decoded): (r: string)
    requires !affiliations.NoValue?
    ensures affiliations == Strs([]) ==> r == ""
    ensures affiliations.Strs? && |affiliations.items| == 1 ==> r == affiliations.items[0]
    ensures affiliations.Str? ==> |r| == if affiliations.s == "" then 0 else 2 * |affiliations.s| - 1
    ensures affiliations.Str? ==> forall k :: 0 <= k < |affiliations.s| ==> r[2 * k] == affiliations.s[k]
    ensures affiliations.Str? ==> forall k :: 0 < k < |affiliations.s| ==> r[2 * k - 1] == ' '
  {
    match affiliations
    case Strs(xs) => Join(xs, " ")
    case Str(s) => JoinCharsLayout(s); Join(Chars(s), " ")
  }

  /** Joining the characters of `s` with spaces puts `s[k]` at position `2k` and a space between each two. */
  lemma {:induction false} JoinCharsLayout(s: string)
    ensures var j := Join(Chars(s), " ");
      |j| == (if s == "" then 0 else 2 * |s| - 1) &&
      (forall k :: 0 <= k < |s| ==> j[2 * k] == s[k]) &&
      (forall k :: 0 < k < |s| ==> j[2 * k - 1] == ' ')
    decreases |s|
  {
    if |s| >= 2 {
      JoinCharsLayout(s[1..]);
      assert Chars(s)[1..] == Chars(s[1..]);
      var rest := Join(Chars(s[1..]), " ");
      assert Join(Chars(s), " ") == [s[0]] + " " + rest;
      forall k | 0 < k < |s| ensures Join(Chars(s), " ")[2 * k] == s[k] {
        assert Join(Chars(s), " ")[2 * k] == rest[2 * (k - 1)];
      }
      forall k | 1 < k < |s| ensures Join(Chars(s), " ")[2 * k - 1] == ' ' {
        assert Join(Chars(s), " ")[2 * k - 1] == rest[2 * (k - 1) - 1];
      }
    } else if |s| == 1 {
      assert Join(Chars(s), " ") == [s[0]];
    }
  }

  /** Every tier name is a word of at least two characters without spaces. */
  lemma TierWords(k: nat)
    requires k < |Tiers|
    ensures |Tiers[k]| >= 2 && ' ' !in Tiers[k]
  {
  }

  /**
   * On a list of roles the chain picks the first tier that some role contains
   * as a substring, and `NA` when no role contains any tier.
   */
  lemma HighestTierOfRoles(xs: seq<string>)
    ensures var r := HighestTier(RoleText(Strs(xs)));
      (r == NoTier <==> forall k, j :: 0 <= k < |Tiers| && 0 <= j < |xs| ==> !Contains(xs[j], Tiers[k])) &&
      forall k :: 0 <= k < |Tiers| && r == Tiers[k] ==>
        (exists j :: 0 <= j < |xs| && Contains(xs[j], r)) &&
        forall i, j :: 0 <= i < k && 0 <= j < |xs| ==> !Contains(xs[j], Tiers[i])
  {
    forall k | 0 <= k < |Tiers|
      ensures Contains(RoleText(Strs(xs)), Tiers[k]) <==> exists j :: 0 <= j < |xs| && Contains(xs[j], Tiers[k])
    {
      TierWords(k);
      ContainsJoin(xs, Tiers[k]);
    }
  }

  /** A role containing tier `k` caps the result at tier `k` or a higher one. */
  lemma TierPrecedence(xs: seq<string>, k: nat, j: nat)
    requires k < |Tiers| && j < |xs| && Contains(xs[j], Tiers[k])
    ensures exists i :: 0 <= i <= k && HighestTier(RoleText(Strs(xs))) == Tiers[i]
  {
    HighestTierOfRoles(xs);
    var r := HighestTier(RoleText(Strs(xs)));
    assert r != NoTier;
    var i :| 0 <= i < |Tiers| && r == Tiers[i];
    assert i <= k;
  }

  /**
   * When the roles attribute is one byte string, the join separates its
   * characters by spaces, so no tier name survives and the result is `NA`.
   */
  lemma StringRolesHaveNoTier(s: string)
    ensures HighestTier(RoleText(Str(s))) == NoTier
  {
    var cs := Chars(s);
    forall k | 0 <= k < |Tiers| ensures !Contains(RoleText(Str(s)), Tiers[k]) {
      TierWords(k);
      ContainsJoin(cs, Tiers[k]);
      forall j | 0 <= j < |cs| ensures !Contains(cs[j], Tiers[k]) {
        assert |cs[j]| == 1;
      }
    }
  }

  // ---------------------------------------------------------------- service entitlements

  /** What `json.loads` gives for one entitlement: an object (only the fields read are kept), another JSON value, or a parse failure. */
  datatype Json = Object(system: Option<string>, eligibility: Option<string>) | NotObject | Malformed

  /** The JSON parser, outside the model. */
  type JsonParser = string -> Json

  const EligibleValues: set<string> := {"yes", "yesDelay", "yesImmed"}
  /** The service `check_service_entitlement` checks when none is named. */
  const DefaultService := "enterprise"

  /** One entitlement record that makes the user eligible for `service`. */
  predicate Grants(j: Json, service: string) {
    j.Object? && j.system == Some(service) && j.eligibility.Some? && j.eligibility.value in EligibleValues
  }

  /** The scan of `check_service_entitlement`: records in order, stopping at the first grant or the first error. */
  function Scan(items: seq<string>, service: string, parse: JsonParser): (r: Result<bool>)
    ensures items == [] ==> r == Ok(false)
    ensures r.Err? ==> r.error == JsonDecodeError || r.error == AttributeError
    decreases |items|
  {
    if items == [] then Ok(false)
    else match parse(items[0])
      case Malformed => Err(JsonDecodeError)
      case NotObject => Err(AttributeError)
      case Object(_, _) => if Grants(parse(items[0]), service) then Ok(true) else Scan(items[1..], service, parse)
  }

  /** Every record before position `k` parses to an object. */
  predicate ObjectsBefore(items: seq<string>, parse: JsonParser, k: nat)
    requires k <= |items|
  {
    forall j :: 0 <= j < k ==> parse(items[j]).Object?
  }

  /** The scan says eligible exactly when some record grants the service and every record before it is an object. */
  lemma {:induction false} ScanEligible(items: seq<string>, service: string, parse: JsonParser)
    ensures Scan(items, service, parse) == Ok(true) <==>
      exists k :: 0 <= k < |items| && Grants(parse(items[k]), service) && ObjectsBefore(items, parse, k)
    decreases |items|
  {
    if items != [] {
      var rest := items[1..];
      ScanEligible(rest, service, parse);
      if parse(items[0]).Object? && !Grants(parse(items[0]), service) {
        if exists k :: 0 <= k < |rest| && Grants(parse(rest[k]), service) && ObjectsBefore(rest, parse, k) {
          var k :| 0 <= k < |rest| && Grants(parse(rest[k]), service) && ObjectsBefore(rest, parse, k);
          assert items[k + 1] == rest[k];
          assert ObjectsBefore(items, parse, k + 1) by {
            forall j | 0 <= j < k + 1 ensures parse(items[j]).Object? {
              if j > 0 { assert items[j] == rest[j - 1]; }
            }
          }
        }
        if exists k :: 0 <= k < |items| && Grants(parse(items[k]), service) && ObjectsBefore(items, parse, k) {
          var k :| 0 <= k < |items| && Grants(parse(items[k]), service) && ObjectsBefore(items, parse, k);
          assert k > 0;
          assert rest[k - 1] == items[k];
          assert ObjectsBefore(rest, parse, k - 1) by {
            forall j | 0 <= j < k - 1 ensures parse(rest[j]).Object? {
              assert rest[j] == items[j + 1];
            }
          }
        }
      } else if exists k :: 0 <= k < |items| && Grants(parse(items[k]), service) && ObjectsBefore(items, parse, k) {
        var k :| 0 <= k < |items| && Grants(parse(items[k]), service) && ObjectsBefore(items, parse, k);
        assert k == 0 || parse(items[0]).Object?;
      }
    }
  }

  /**
   * When every record parses to an object, the answer is whether some record
   * grants the service; status, action and the other fields play no part.
   */
  lemma {:induction false} ScanWellFormed(items: seq<string>, service: string, parse: JsonParser)
    requires ObjectsBefore(items, parse, |items|)
    ensures Scan(items, service, parse) == Ok(exists k :: 0 <= k < |items| && Grants(parse(items[k]), service))
    decreases |items|
  {
    if items != [] {
      var rest := items[1..];
      assert ObjectsBefore(rest, parse, |rest|) by {
        forall j | 0 <= j < |rest| ensures parse(rest[j]).Object? {
          assert rest[j] == items[j + 1];
        }
      }
      ScanWellFormed(rest, service, parse);
      if exists k :: 0 <= k < |rest| && Grants(parse(rest[k]), service) {
        var k :| 0 <= k < |rest| && Grants(parse(rest[k]), service);
        assert items[k + 1] == rest[k];
      }
      if exists k :: 0 <= k < |items| && Grants(parse(items[k]), service) {
        var k :| 0 <= k < |items| && Grants(parse(items[k]), service);
        if k > 0 { assert rest[k - 1] == items[k]; }
      }
    }
  }

  /** The exception `json.loads` or `.get` raises on a record that is not a JSON object. */
  function RecordError(j: Json): Error
    requires !j.Object?
  {
    if j.Malformed? then JsonDecodeError else AttributeError
  }

  /** No record before position `k` grants the service. */
  predicate NoGrantBefore(items: seq<string>, service: string, parse: JsonParser, k: nat)
    requires k <= |items|
  {
    forall j :: 0 <= j < k ==> !Grants(parse(items[j]), service)
  }

  /**
   * Record `k` is where the scan raises `e`: it is not an object, `e` is its
   * error, and every record before it is an object that does not grant the service.
   */
  predicate RaisesAt(items: seq<string>, service: string, parse: JsonParser, e: Error, k: nat) {
    k < |items| && !parse(items[k]).Object? && ObjectsBefore(items, parse, k) &&
    NoGrantBefore(items, service, parse, k) && e == RecordError(parse(items[k]))
  }

  /** The scan raises `e` exactly when some record is where it raises `e`. */
  lemma {:induction false} ScanRaises(items: seq<string>, service: string, parse: JsonParser, e: Error)
    ensures Scan(items, service, parse) == Err(e) <==> exists k: nat :: RaisesAt(items, service, parse, e, k)
    decreases |items|
  {
    if items != [] && parse(items[0]).Object? && !Grants(parse(items[0]), service) {
      var rest := items[1..];
      ScanRaises(rest, service, parse, e);
      if Scan(rest, service, parse) == Err(e) {
        var k: nat :| RaisesAt(rest, service, parse, e, k);
        assert items[k + 1] == rest[k];
        forall j | 0 < j < k + 1 ensures items[j] == rest[j - 1] { }
        assert RaisesAt(items, service, parse, e, k + 1);
      }
      if exists k: nat :: RaisesAt(items, service, parse, e, k) {
        var k: nat :| RaisesAt(items, service, parse, e, k);
        assert k > 0;
        assert rest[k - 1] == items[k];
        forall j | 0 <= j < k - 1 ensures rest[j] == items[j + 1] { }
        assert RaisesAt(rest, service, parse, e, k - 1);
      }
    } else if items != [] && !parse(items[0]).Object? {
      assert RaisesAt(items, service, parse, RecordError(parse(items[0])), 0);
    }
  }

  /** The flag-and-break loop of `check_service_entitlement` over the populated records. */
  method ScanEntitlements(items: seq<string>, service: string, parse: JsonParser) returns (r: Result<bool>)
    ensures r == Scan(items, service, parse)
  {
    var eligible := false;
    var i := 0;
    while i < |items|
      invariant 0 <= i <= |items|
      invariant Scan(items, service, parse) == Scan(items[i..], service, parse)
    {
      assert items[i..][0] == items[i] && items[i..][1..] == items[i + 1..];
      var record := parse(items[i]);
      if record.Malformed? {
        return Err(JsonDecodeError);
      }
      if record.NotObject? {
        return Err(AttributeError);
      }
      if record.system == Some(service) {
        if record.eligibility.Some? && record.eligibility.value in EligibleValues {
          eligible := true;
          break;
        }
      }
      i := i + 1;
    }
    r := Ok(eligible);
  }

  // ---------------------------------------------------------------- sponsorship

  /** `re.match('^um[0-9]+', name)`: `um` followed by at least one ASCII digit. */
  function IsUmNumbered(name: string): (b: bool)
    ensures b <==> exists n :: 3 <= n <= |name| && UmDigits(name, n)
  {
    if StartsWith(name, "um") && |name| > 2 && IsAsciiDigit(name[2]) then
      assert UmDigits(name, 3);
      true
    else
      false
  }

  /** `name[..n]` is `um` followed by digits only: what the pattern `^um[0-9]+` matches, when `n >= 3`. */
  predicate UmDigits(name: string, n: nat)
    requires n <= |name|
  {
    StartsWith(name, "um") && 2 <= n && forall k :: 2 <= k < n ==> IsAsciiDigit(name[k])
  }

  /**
   * `check_sponsorship_type` once the highest affiliation is known. Matching
   * `^99` against an identifier that is not a plain string raises `TypeError`.
   */
  function SponsorshipType(highest: string, name: string, entityId: Decoded): (r: Result<nat>)
    ensures r.Ok? ==> r.value <= 3
    ensures r == Ok(0) <==> highest != Sponsored
    ensures r == Ok(3) <==> highest == Sponsored && IsUmNumbered(name)
    ensures r == Ok(2) <==> highest == Sponsored && !IsUmNumbered(name) && entityId.Str? && StartsWith(entityId.s, "99")
    ensures r.Err? <==> highest == Sponsored && !IsUmNumbered(name) && !entityId.Str?
    ensures r.Err? ==> r.error == TypeError
  {
    if highest != Sponsored then Ok(0)
    else if IsUmNumbered(name) then Ok(3)
    else match entityId
      case Str(id) => if StartsWith(id, "99") then Ok(2) else Ok(1)
      case _ => Err(TypeError)
  }

  // ---------------------------------------------------------------- populate-once fields

  /** `populate_affiliations` as a function of the field and the raw record. */
  function PopulatedRoles(current: Decoded, raw: RawResult): (d: Decoded)
    ensures !d.NoValue?
    ensures Truthy(current) ==> d == current
    ensures !Truthy(current) && raw != [] && InstRolesKey in raw[0].attrs && raw[0].attrs[InstRolesKey].Values? ==>
      d == Strs(raw[0].attrs[InstRolesKey].items)
    ensures !Truthy(current) && raw != [] && InstRolesKey in raw[0].attrs && raw[0].attrs[InstRolesKey].Bytes? ==>
      var text := raw[0].attrs[InstRolesKey].text;
      d == if text == "" then Strs([]) else Str(text)
    ensures !Truthy(current) && (raw == [] || InstRolesKey !in raw[0].attrs) ==> d == Strs([])
  {
    if Truthy(current) then current
    else
      var instRoles := Decode(raw, InstRolesKey, false);
      if Truthy(instRoles) then instRoles else Strs([])
  }

  /** Populating the roles twice is populating them once. */
  lemma PopulatedRolesIdempotent(current: Decoded, raw: RawResult)
    ensures PopulatedRoles(PopulatedRoles(current, raw), raw) == PopulatedRoles(current, raw)
  {
  }

  /** `populate_service_entitlements` as a function of the field and the raw record. */
  function PopulatedEntitlements(current: Decoded, raw: RawResult): (d: Decoded)
    ensures Truthy(current) ==> d == current
    ensures !Truthy(current) && raw == [] ==> d == Str("")
    ensures !Truthy(current) && raw != [] && EntitlementKey !in raw[0].attrs ==> d == NoValue
    ensures !Truthy(current) && raw != [] && EntitlementKey in raw[0].attrs ==>
      match raw[0].attrs[EntitlementKey]
      case Values(items) => d == Strs(items)
      case Bytes(text) => d == Str(text)
    ensures !Truthy(d) ==> !Truthy(current)
  {
    if Truthy(current) then current else Decode(raw, EntitlementKey, false)
  }

  /** Populating the entitlements twice is populating them once, whether or not the first left them empty. */
  lemma PopulatedEntitlementsIdempotent(current: Decoded, raw: RawResult)
    ensures PopulatedEntitlements(PopulatedEntitlements(current, raw), raw) == PopulatedEntitlements(current, raw)
  {
  }

  /** The values iterating over a populated field yields. */
  function Iterated(d: Decoded): seq<string>
    requires !d.NoValue?
  {
    match d
    case Strs(xs) => xs
    case Str(s) => Chars(s)
  }

  /** `check_service_entitlement(service)` as a function of the field and the raw record. */
  function EntitlementCheck(current: Decoded, raw: RawResult, service: string, parse: JsonParser): (r: Result<bool>)
    ensures !Truthy(current) && (raw == [] || EntitlementKey !in raw[0].attrs) ==>
      r == Err(UserWarning(NoEntitlementsMessage))
    ensures Truthy(current) && current.Strs? ==> r == Scan(current.items, service, parse)
    ensures !Truthy(current) && raw != [] && EntitlementKey in raw[0].attrs && raw[0].attrs[EntitlementKey].Values? ==>
      var items := raw[0].attrs[EntitlementKey].items;
      r == if items == [] then Err(UserWarning(NoEntitlementsMessage)) else Scan(items, service, parse)
    ensures Truthy(current) && current.Str? ==> r == Scan(Chars(current.s), service, parse)
    ensures !Truthy(current) && raw != [] && EntitlementKey in raw[0].attrs && raw[0].attrs[EntitlementKey].Bytes? ==>
      var text := raw[0].attrs[EntitlementKey].text;
      r == if text == "" then Err(UserWarning(NoEntitlementsMessage)) else Scan(Chars(text), service, parse)
  {
    var entitlements := PopulatedEntitlements(current, raw);
    if Truthy(entitlements) then Scan(Iterated(entitlements), service, parse)
    else Err(UserWarning(NoEntitlementsMessage))
  }

  // ---------------------------------------------------------------- the user object

  class User {
    const name: string
    const queryObject: string
    const email: string
    const rawResult: RawResult
    const present: bool   // the `exists` flag
    const entityId: Decoded
    const displayName: Decoded
    const errors: Option<Error>
    var affiliations: Decoded
    var highestAffiliation: string
    var serviceEntitlements: Decoded

    /** The state `__init__` leaves for `uniqname` once the search returned `raw`. */
    ghost predicate Initialized(uniqname: string, raw: RawResult)
      reads this
    {
      && name == uniqname
      && queryObject == UserQuery(uniqname).filter
      && email == uniqname + MailDomain
      && rawResult == raw
      && (raw == [] ==>
            errors == Some(UserNotFound(uniqname)) && !present && entityId == Str("") && displayName == Str(""))
      && (raw != [] ==>
            errors == None && present &&
            entityId == Decode(raw, "entityid", true) && displayName == Decode(raw, "displayName", true))
      && affiliations == Strs([]) && highestAffiliation == "" && serviceEntitlements == Strs([])
    }

    /** `__init__` after its search returned `raw`. */
    constructor (uniqname: string, raw: RawResult)
      ensures Initialized(uniqname, raw)
    {
      name := uniqname;
      queryObject := UserQuery(uniqname).filter;
      email := uniqname + MailDomain;
      rawResult := raw;
      if raw == [] {
        errors := Some(UserNotFound(uniqname));
        present := false;
        entityId, displayName := Str(""), Str("");
      } else {
        errors := None;
        present := true;
        entityId := Decode(raw, "entityid", true);
        displayName := Decode(raw, "displayName", true);
      }
      affiliations, highestAffiliation, serviceEntitlements := Strs([]), "", Strs([]);
    }

    method PopulateAffiliations()
      modifies this`affiliations
      ensures affiliations == PopulatedRoles(old(affiliations), rawResult)
    {
      if !Truthy(affiliations) {
        var instRoles := Decode(rawResult, InstRolesKey, false);
        if Truthy(instRoles) {
          affiliations := instRoles;
        } else {
          affiliations := Strs([]);
        }
      }
    }

    /** Recomputed on every call; only the affiliations underneath are populated once. */
    method PopulateHighestAffiliation()
      modifies this`affiliations, this`highestAffiliation
      ensures affiliations == PopulatedRoles(old(affiliations), rawResult)
      ensures highestAffiliation == HighestTier(RoleText(affiliations))
    {
      PopulateAffiliations();
      var role := RoleText(affiliations);
      highestAffiliation := HighestTier(role);
    }

    /** Raises `UserWarning` when the field is still empty after decoding, having stored the empty value. */
    method PopulateServiceEntitlements() returns (o: Outcome)
      modifies this`serviceEntitlements
      ensures serviceEntitlements == PopulatedEntitlements(old(serviceEntitlements), rawResult)
      ensures o == if Truthy(serviceEntitlements) then Pass else Fail(UserWarning(NoEntitlementsMessage))
    {
      o := Pass;
      if !Truthy(serviceEntitlements) {
        serviceEntitlements := Decode(rawResult, EntitlementKey, false);
        if !Truthy(serviceEntitlements) {
          o := Fail(UserWarning(NoEntitlementsMessage));
        }
      }
    }

    method CheckServiceEntitlement(parse: JsonParser, service: string := DefaultService) returns (r: Result<bool>)
      modifies this`serviceEntitlements
      ensures serviceEntitlements == PopulatedEntitlements(old(serviceEntitlements), rawResult)
      ensures r == EntitlementCheck(old(serviceEntitlements), rawResult, service, parse)
    {
      var o := PopulateServiceEntitlements();
      if o.Fail? {
        return Err(o.error);
      }
      r := ScanEntitlements(Iterated(serviceEntitlements), service, parse);
    }

    method CheckSponsorshipType() returns (r: Result<nat>)
      modifies this`affiliations, this`highestAffiliation
      ensures old(highestAffiliation) != "" ==>
        affiliations == old(affiliations) && highestAffiliation == old(highestAffiliation)
      ensures old(highestAffiliation) == "" ==>
        affiliations == PopulatedRoles(old(affiliations), rawResult) &&
        highestAffiliation == HighestTier(RoleText(affiliations))
      ensures r == SponsorshipType(highestAffiliation, name, entityId)
    {
      if highestAffiliation == "" {
        PopulateHighestAffiliation();
      }
      if highestAffiliation == Sponsored {
        if IsUmNumbered(name) {
          r := Ok(3);
        } else if entityId.Str? {
          r := if StartsWith(entityId.s, "99") then Ok(2) else Ok(1);
        } else {
          r := Err(TypeError);
        }
      } else {
        r := Ok(0);
      }
    }
  }

  /**
   * `MCommunityUser(uniqname, ...)`: a search that raises leaves no user; an
   * empty answer gives a user that records the not-found error.
   */
  method NewUser(uniqname: string, dir: Directory) returns (r: Result<User>)
    ensures RetryFrom(dir, UserQuery(uniqname), 1).result.Err? ==>
      r == Err(RetryFrom(dir, UserQuery(uniqname), 1).result.error)
    ensures RetryFrom(dir, UserQuery(uniqname), 1).result.Ok? ==>
      r.Ok? && fresh(r.value) && r.value.Initialized(uniqname, RetryFrom(dir, UserQuery(uniqname), 1).result.value)
  {
    var found, attempts;
    ghost var sleeps;
    found, attempts, sleeps := Search(dir, UserQuery(uniqname));
    if found.Err? {
      return Err(found.error);
    }
    var user := new User(uniqname, found.value);
    r := Ok(user);
  }

  /** A user the directory does not know has tier `NA`, sponsorship type 0 and no entitlements to check. */
  lemma NotFoundUserClassification(uniqname: string, service: string, parse: JsonParser)
    ensures HighestTier(RoleText(PopulatedRoles(Strs([]), []))) == NoTier
    ensures SponsorshipType(HighestTier(RoleText(PopulatedRoles(Strs([]), []))), uniqname, Str("")) == Ok(0)
    ensures EntitlementCheck(Strs([]), [], service, parse) == Err(UserWarning(NoEntitlementsMessage))
  {
    assert RoleText(Strs([])) == "";
  }
}
