/**
 * A directory group: looked up once at construction (a missing group is an
 * error, unlike a missing user), its members parsed from the member DNs into a
 * list that every group object shares, and resolved to users once on demand.
 */
module MCommunityGroup {
  import opened Text
  import opened MCommunityBase
  import opened MCommunityUser

  const GroupBase := "ou=User Groups,ou=Groups,dc=umich,dc=edu"
  /** Groups do not set their own attribute list and inherit the base's. */
  const GroupAttributes: seq<string> := ["*"]
  const MemberKey := "member"
  const UidMarker := "uid="

  /** The search a group lookup issues for `cn`. */
  function GroupQuery(cn: string): Query {
    Query(GroupBase, "cn=" + cn, GroupAttributes)
  }

  /** The error raised when no group matches. */
  function GroupNotFound(cn: string): Error {
    NameError("MCommunity group " + cn + " does not exist.")
  }

  // ---------------------------------------------------------------- member DNs

  /** `explode_dn(dn)[0]`: the first RDN, the text before the first comma; an empty DN has none. */
  function FirstRdn(dn: string): (r: Result<string>)
    ensures r.Err? <==> dn == ""
    ensures r.Err? ==> r.error == IndexError
    ensures r.Ok? ==> StartsWith(dn, r.value) && ',' !in r.value && (|r.value| < |dn| ==> dn[|r.value|] == ',')
  {
    if dn == "" then Err(IndexError) else Ok(BeforeComma(dn))
  }

  /** `rdn.split('uid=')[1]`: the text after the first `uid=` up to the next one, if any. */
  function AfterFirstUid(rdn: string): (r: Result<string>)
    ensures r.Err? <==> !Contains(rdn, UidMarker)
    ensures r.Err? ==> r.error == IndexError
    ensures r.Ok? ==> exists i: nat :: UidValueAt(rdn, i, r.value)
  {
    match FindFrom(rdn, UidMarker, 0)
    case None => Err(IndexError)
    case Some(i) =>
      var start := i + |UidMarker|;
      match FindFrom(rdn, UidMarker, start)
      case None =>
        assert UidValueAt(rdn, i, rdn[start..]);
        Ok(rdn[start..])
      case Some(j) =>
        assert rdn[start..][..j - start] == rdn[start..j];
        assert UidValueAt(rdn, i, rdn[start..j]);
        Ok(rdn[start..j])
  }

  /**
   * `v` is the second piece of `rdn.split('uid=')` when the first `uid=` is at
   * `i`: the text after it, up to the next `uid=` or the end.
   */
  predicate UidValueAt(rdn: string, i: nat, v: string) {
    FirstUidAt(rdn, i) &&
    StartsWith(rdn[i + |UidMarker|..], v) &&
    (forall p :: i + |UidMarker| <= p < i + |UidMarker| + |v| ==> !OccursAt(rdn, UidMarker, p)) &&
    (i + |UidMarker| + |v| == |rdn| || OccursAt(rdn, UidMarker, i + |UidMarker| + |v|))
  }

  /** `i` is the position of the first `uid=` in `rdn`. */
  predicate FirstUidAt(rdn: string, i: nat) {
    OccursAt(rdn, UidMarker, i) && forall j :: 0 <= j < i ==> !OccursAt(rdn, UidMarker, j)
  }

  /** The identifier the constructor appends for one member DN; every failure is an `IndexError`. */
  function MemberUid(dn: string): (r: Result<string>)
    ensures r.Err? <==> dn == "" || !Contains(BeforeComma(dn), UidMarker)
    ensures r.Err? ==> r.error == IndexError
  {
    match FirstRdn(dn)
    case Err(e) => Err(e)
    case Ok(rdn) => AfterFirstUid(rdn)
  }

  /** The uids the loop appends, in order, up to the first DN it cannot parse, and that DN's error. */
  function ParseMembers(dns: seq<string>): (p: Parsed)
    ensures |p.uids| <= |dns|
    ensures p.error == None || p.error == Some(IndexError)
    ensures p.error == None ==> |p.uids| == |dns|
    decreases |dns|
  {
    if dns == [] then Parsed([], None)
    else match MemberUid(dns[0])
      case Err(e) => Parsed([], Some(e))
      case Ok(uid) =>
        var rest := ParseMembers(dns[1..]);
        Parsed([uid] + rest.uids, rest.error)
  }

  /** The uids appended by the member loop and the error that stopped it, if any. */
  datatype Parsed = Parsed(uids: seq<string>, error: Option<Error>)

  /** `raw_result[0][1].get('member', [])` as the loop iterates it; iterating one bytes value gives ints, the first of which fails. */
  function MemberValues(entry: Entry): (r: Result<seq<string>>)
    ensures r.Err? <==> MemberKey in entry.attrs && entry.attrs[MemberKey].Bytes? && entry.attrs[MemberKey].text != ""
    ensures r.Err? ==> r.error == if entry.attrs[MemberKey].text[0] == '\0' then IndexError else TypeError
    ensures r.Ok? && r.value != [] ==> MemberKey in entry.attrs && entry.attrs[MemberKey] == Values(r.value)
    ensures MemberKey in entry.attrs && entry.attrs[MemberKey].Values? ==> r == Ok(entry.attrs[MemberKey].items)
  {
    if MemberKey !in entry.attrs then Ok([])
    else match entry.attrs[MemberKey]
      case Values(dns) => Ok(dns)
      case Bytes(text) =>
        if text == "" then Ok([])
        else if text[0] == '\0' then Err(IndexError)  // the integer 0 is falsy: `explode_dn` gives `[]`
        else Err(TypeError)
  }

  /** What the member loop of `__init__` appends for a found group, and the error it stops on. */
  function ParsedMembers(raw: RawResult): (p: Parsed)
    requires raw != []
    ensures p.error == Some(TypeError) <==> MemberValues(raw[0]) == Err(TypeError)
    ensures p.error == None || p.error == Some(IndexError) || p.error == Some(TypeError)
    ensures MemberValues(raw[0]).Ok? ==> |p.uids| <= |MemberValues(raw[0]).value|
  {
    match MemberValues(raw[0])
    case Err(e) => Parsed([], Some(e))
    case Ok(dns) => ParseMembers(dns)
  }

  /**
   * The uids are the parsed DNs in order, one per DN at its own position;
   * they stop short of the end exactly at the DN whose parse failed.
   */
  lemma {:induction false} ParseMembersPositions(dns: seq<string>)
    ensures var p := ParseMembers(dns);
      |p.uids| <= |dns| &&
      (forall i :: 0 <= i < |p.uids| ==> MemberUid(dns[i]) == Ok(p.uids[i])) &&
      (p.error == None ==> |p.uids| == |dns|) &&
      (p.error.Some? ==> |p.uids| < |dns| && MemberUid(dns[|p.uids|]) == Err(p.error.value))
    decreases |dns|
  {
    if dns != [] && MemberUid(dns[0]).Ok? {
      var rest := dns[1..];
      ParseMembersPositions(rest);
      var p := ParseMembers(dns);
      var q := ParseMembers(rest);
      assert p.uids == [MemberUid(dns[0]).value] + q.uids && p.error == q.error;
      forall i | 0 <= i < |p.uids| ensures MemberUid(dns[i]) == Ok(p.uids[i]) {
        if i > 0 {
          assert p.uids[i] == q.uids[i - 1] && dns[i] == rest[i - 1];
        }
      }
      if p.error.Some? {
        assert dns[|p.uids|] == rest[|q.uids|];
      }
    }
  }

  /**
   * Without an error every DN contributes exactly one uid: nothing is
   * dropped, reordered or deduplicated; and there is no error exactly when
   * every DN parses.
   */
  lemma ParseMembersComplete(dns: seq<string>)
    ensures ParseMembers(dns).error == None <==> forall i :: 0 <= i < |dns| ==> MemberUid(dns[i]).Ok?
    ensures ParseMembers(dns).error == None ==>
      |ParseMembers(dns).uids| == |dns| &&
      forall i :: 0 <= i < |dns| ==> MemberUid(dns[i]) == Ok(ParseMembers(dns).uids[i])
  {
    ParseMembersPositions(dns);
  }

  /** A found group whose record has no `member` attribute gets no members and no error. */
  lemma MissingMemberAttribute(raw: RawResult)
    requires raw != [] && MemberKey !in raw[0].attrs
    ensures ParsedMembers(raw) == Parsed([], None)
  {
  }

  /** A DN `uid=<u>,<rest>` gives back `u` when `u` holds no comma and no `uid=`. */
  lemma MemberUidOfDn(u: string, rest: string)
    requires ',' !in u && !Contains(u, UidMarker)
    ensures MemberUid(UidMarker + u + "," + rest) == Ok(u)
  {
    var dn := UidMarker + u + "," + rest;
    var rdn := UidMarker + u;
    BeforeCommaOfPrefix(rdn, rest);
    assert dn == rdn + "," + rest;
    assert FirstRdn(dn) == Ok(rdn);
    assert OccursAt(rdn, UidMarker, 0);
    assert FindFrom(rdn, UidMarker, 0) == Some(0);
    forall j | 4 <= j ensures !OccursAt(rdn, UidMarker, j) {
      if OccursAt(rdn, UidMarker, j) {
        assert rdn[j..j + 4] == u[j - 4..j];
        assert OccursAt(u, UidMarker, j - 4);
      }
    }
    assert FindFrom(rdn, UidMarker, 4) == None;
    assert rdn[4..] == u;
  }

  /** The text before the first comma of `a + "," + b` is `a` when `a` has no comma. */
  lemma {:induction false} BeforeCommaOfPrefix(a: string, b: string)
    requires ',' !in a
    ensures BeforeComma(a + "," + b) == a
    decreases |a|
  {
    if a == [] {
      assert ("" + "," + b)[0] == ',';
    } else {
      assert (a + "," + b)[1..] == a[1..] + "," + b;
      BeforeCommaOfPrefix(a[1..], b);
    }
  }

  /** A string without `=` holds no `uid=`. */
  lemma NoEqualsNoUid(u: string)
    requires '=' !in u
    ensures !Contains(u, UidMarker)
  {
    forall i | 0 <= i <= |u| - |UidMarker| ensures !OccursAt(u, UidMarker, i) {
      assert u[i + 3] in u;
      assert u[i..i + 4][3] == u[i + 3];
    }
  }

  /** The same member DN listed twice gives its uid twice: there is no deduplication. */
  lemma DuplicateMembersKept(u: string, rest: string)
    requires ',' !in u && '=' !in u
    ensures var dn := UidMarker + u + "," + rest; ParseMembers([dn, dn]) == Parsed([u, u], None)
  {
    var dn := UidMarker + u + "," + rest;
    NoEqualsNoUid(u);
    MemberUidOfDn(u, rest);
    assert [dn][1..] == [];
    assert ParseMembers([dn]) == Parsed([u], None);
    assert [dn, dn][1..] == [dn];
  }

  /** One step of the member loop: the parse from position `i` on, unfolded once. */
  lemma ParseMembersStep(dns: seq<string>, i: nat)
    requires i < |dns|
    ensures MemberUid(dns[i]).Err? ==> ParseMembers(dns[i..]) == Parsed([], Some(MemberUid(dns[i]).error))
    ensures MemberUid(dns[i]).Ok? ==>
      ParseMembers(dns[i..]) ==
        Parsed([MemberUid(dns[i]).value] + ParseMembers(dns[i + 1..]).uids, ParseMembers(dns[i + 1..]).error)
  {
    assert dns[i..][0] == dns[i] && dns[i..][1..] == dns[i + 1..];
  }

  lemma AppendAssoc(a: seq<string>, x: string, b: seq<string>)
    ensures a + ([x] + b) == (a + [x]) + b
  {
  }

  // ---------------------------------------------------------------- objects

  /** The list object behind the class attribute `members`: one, shared by every group. */
  class MemberList {
    var items: seq<string>

    constructor ()
      ensures items == []
    {
      items := [];
    }

    /** The member loop of `__init__`: parse each DN and append its uid; stop at the first that fails. */
    method AppendParsed(dns: seq<string>) returns (error: Option<Error>)
      modifies this
      ensures items == old(items) + ParseMembers(dns).uids
      ensures error == ParseMembers(dns).error
    {
      ghost var appended: seq<string> := [];
      var i := 0;
      assert dns[i..] == dns;
      while i < |dns|
        invariant 0 <= i <= |dns|
        invariant items == old(items) + appended
        invariant ParseMembers(dns).uids == appended + ParseMembers(dns[i..]).uids
        invariant ParseMembers(dns).error == ParseMembers(dns[i..]).error
      {
        ParseMembersStep(dns, i);
        var uid := MemberUid(dns[i]);
        if uid.Err? {
          assert appended + ParseMembers(dns[i..]).uids == appended;
          return Some(uid.error);
        }
        AppendAssoc(appended, uid.value, ParseMembers(dns[i + 1..]).uids);
        items := items + [uid.value];
        appended := appended + [uid.value];
        i := i + 1;
      }
      assert dns[i..] == [];
      assert appended + ParseMembers(dns[i..]).uids == appended;
      error := None;
    }
  }

  class Group {
    const name: string
    const queryObject: string
    const rawResult: RawResult
    const present: bool   // the `exists` flag
    const members: MemberList
    var membersUsers: seq<User>

    /** The object `__init__` builds once the search found `raw` and the member list is settled. */
    constructor (cn: string, raw: RawResult, shared: MemberList)
      ensures name == cn && queryObject == GroupQuery(cn).filter && rawResult == raw && present
      ensures members == shared && membersUsers == []
    {
      name := cn;
      queryObject := GroupQuery(cn).filter;
      rawResult := raw;
      present := true;
      members := shared;
      membersUsers := [];
    }

    /**
     * `populate_members_mcomm_users`: one user lookup per member, in order,
     * unless the list is already filled; a lookup that raises leaves it unset.
     */
    method PopulateMembersUsers(dir: Directory) returns (r: Result<seq<User>>)
      modifies this`membersUsers
      ensures r.Ok? ==> r.value == membersUsers
      ensures old(membersUsers) != [] ==> r == Ok(old(membersUsers))
      ensures r.Err? ==> membersUsers == old(membersUsers)
      ensures old(membersUsers) == [] ==>
        (r.Ok? <==> forall i :: 0 <= i < |members.items| ==> RetryFrom(dir, UserQuery(members.items[i]), 1).result.Ok?)
      ensures old(membersUsers) == [] && r.Ok? ==>
        |membersUsers| == |members.items| &&
        forall i :: 0 <= i < |members.items| ==>
          fresh(membersUsers[i]) &&
          membersUsers[i].Initialized(members.items[i], RetryFrom(dir, UserQuery(members.items[i]), 1).result.value)
      ensures old(membersUsers) == [] && r.Err? ==>
        exists i :: 0 <= i < |members.items| && RetryFrom(dir, UserQuery(members.items[i]), 1).result == Err(r.error) &&
          forall k :: 0 <= k < i ==> RetryFrom(dir, UserQuery(members.items[k]), 1).result.Ok?
    {
      if membersUsers != [] {
        return Ok(membersUsers);
      }
      var uniqnames := members.items;
      var users: seq<User> := [];
      for i := 0 to |uniqnames|
        invariant |users| == i
        invariant membersUsers == old(membersUsers)
        invariant forall k :: 0 <= k < i ==> RetryFrom(dir, UserQuery(uniqnames[k]), 1).result.Ok?
        invariant forall k :: 0 <= k < i ==>
          fresh(users[k]) && users[k].Initialized(uniqnames[k], RetryFrom(dir, UserQuery(uniqnames[k]), 1).result.value)
      {
        var user := NewUser(uniqnames[i], dir);
        if user.Err? {
          return Err(user.error);
        }
        users := users + [user.value];
      }
      membersUsers := users;
      r := Ok(users);
    }
  }

  /**
   * `MCommunityGroup(cn, ...)`: a search that raises, or finds nothing, leaves
   * no group and the shared list untouched. Otherwise the member loop runs only
   * if the shared list is still empty, so a second group keeps the members of
   * the first; a DN it cannot parse raises after the uids before it were appended.
   */
  method NewGroup(cn: string, shared: MemberList, dir: Directory) returns (r: Result<Group>)
    modifies shared
    ensures var found := RetryFrom(dir, GroupQuery(cn), 1).result;
      found.Err? ==> r == Err(found.error) && shared.items == old(shared.items)
    ensures var found := RetryFrom(dir, GroupQuery(cn), 1).result;
      found == Ok([]) ==> r == Err(GroupNotFound(cn)) && shared.items == old(shared.items)
    ensures var found := RetryFrom(dir, GroupQuery(cn), 1).result;
      found.Ok? && found.value != [] && old(shared.items) != [] ==>
        shared.items == old(shared.items) && r.Ok?
    ensures var found := RetryFrom(dir, GroupQuery(cn), 1).result;
      found.Ok? && found.value != [] && old(shared.items) == [] ==>
        shared.items == ParsedMembers(found.value).uids &&
        (ParsedMembers(found.value).error.None? ==> r.Ok?) &&
        (ParsedMembers(found.value).error.Some? ==> r == Err(ParsedMembers(found.value).error.value))
    ensures r.Ok? ==>
      var found := RetryFrom(dir, GroupQuery(cn), 1).result;
      fresh(r.value) && found.Ok? && r.value.rawResult == found.value && found.value != [] &&
      r.value.name == cn && r.value.queryObject == GroupQuery(cn).filter && r.value.present &&
      r.value.members == shared && r.value.membersUsers == []
  {
    var found, attempts;
    ghost var sleeps;
    found, attempts, sleeps := Search(dir, GroupQuery(cn));
    if found.Err? {
      return Err(found.error);
    }
    var raw := found.value;
    if raw == [] {
      return Err(GroupNotFound(cn));
    }
    if shared.items == [] {
      var values := MemberValues(raw[0]);
      if values.Err? {
        return Err(values.error);
      }
      var error := shared.AppendParsed(values.value);
      if error.Some? {
        return Err(error.value);
      }
    }
    var g := new Group(cn, raw, shared);
    r := Ok(g);
  }

  /**
   * Two groups built one after the other with the class-level list: the second
   * one's members are the first one's, whatever its own record lists.
   */
  method SecondGroupSharesMembers(cn1: string, cn2: string, dir: Directory) returns (r1: Result<Group>, r2: Result<Group>)
    requires RetryFrom(dir, GroupQuery(cn1), 1).result.Ok? && RetryFrom(dir, GroupQuery(cn1), 1).result.value != []
    requires ParsedMembers(RetryFrom(dir, GroupQuery(cn1), 1).result.value).error == None
    requires ParsedMembers(RetryFrom(dir, GroupQuery(cn1), 1).result.value).uids != []
    requires RetryFrom(dir, GroupQuery(cn2), 1).result.Ok? && RetryFrom(dir, GroupQuery(cn2), 1).result.value != []
    ensures r1.Ok? && r2.Ok? && r1.value.members == r2.value.members
    ensures r2.value.members.items == ParsedMembers(RetryFrom(dir, GroupQuery(cn1), 1).result.value).uids
  {
    var shared := new MemberList();
    r1 := NewGroup(cn1, shared, dir);
    r2 := NewGroup(cn2, shared, dir);
  }

  /**
   * The evidently intended construction: each group parses its own record into
   * a list of its own, so earlier groups have no influence.
   */
  method NewGroupOwnMembers(cn: string, dir: Directory) returns (r: Result<Group>)
    ensures var found := RetryFrom(dir, GroupQuery(cn), 1).result;
      r.Ok? <==> found.Ok? && found.value != [] && ParsedMembers(found.value).error.None?
    ensures r.Ok? ==>
      var found := RetryFrom(dir, GroupQuery(cn), 1).result;
      fresh(r.value) && fresh(r.value.members) && r.value.name == cn && r.value.rawResult == found.value &&
      r.value.members.items == ParsedMembers(found.value).uids && r.value.membersUsers == []
    ensures r.Err? ==>
      var found := RetryFrom(dir, GroupQuery(cn), 1).result;
      (found.Err? && r.error == found.error) ||
      (found == Ok([]) && r.error == GroupNotFound(cn)) ||
      (found.Ok? && found.value != [] && ParsedMembers(found.value).error == Some(r.error))
  {
    var own := new MemberList();
    r := NewGroup(cn, own, dir);
  }
}
