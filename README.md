# mcommunity-tools, modelled in Dafny

This is a model of the core of a small client for the University of Michigan
MCommunity (LDAP) directory. It has three parts:

- **`MCommunityBase`** (`base.dfy`). The search retries while the directory is
  transiently unreachable. It makes at most three attempts. After failed attempt
  `i` it pauses `i*5` seconds, and in the end it gives up with `UNAVAILABLE`.
  This part also holds `_decode`, which reads one attribute of the first record
  of a search result.
- **`MCommunityUser`** (`user.dfy`). A person is looked up once, at
  construction, and classified later on demand. The affiliations and the
  service entitlements are filled in by populate-once methods, which leave a
  non-empty field alone. The highest affiliation is recomputed on every call
  to its populate method, from the seven-tier precedence chain. Only the
  sponsorship check skips that call when the field is already set. Eligibility for a service is a scan over JSON entitlement
  records. Sponsorship type is one of 0 to 3.
- **`MCommunityGroup`** (`group.dfy`). A group that is not found raises. A found
  group's member DNs are parsed into the uid of their first RDN. The uids are
  appended, in order, to a member list that is **one class-level list shared by
  every group**. The members can then be resolved to users, once.
- **`Text`** (`text.dfy`) holds the string operations these parts use:
  - substring containment;
  - prefix tests;
  - `' '.join`;
  - the text before the first comma;
  - the search for an occurrence.

Boundaries the model takes as parameters:

- The directory is an oracle from a query and an attempt number to an outcome:
  an answer, or a raised error. Each attempt opens a connection of its own, so
  each attempt number asks the oracle afresh.
- The sleeps are returned as a ghost log of pauses.
- `json.loads` is an oracle from text to a parsed value. The parsed value is an
  object with optional `system` and `eligibility`, another JSON value, or a
  parse failure.
- Exceptions are a `Result`/`Outcome` datatype carrying an `Error`.
- Python constructors that can raise become factory methods, `NewUser` and
  `NewGroup`. Each calls the search and then the class constructor.

On three points one might expect otherwise; the model follows the code:

- `_decode` returns `None` (`NoValue`), not `''`, for a key that is absent from
  an existing record.
- Members are not deduplicated.
- `members` is shared by all groups and is not per group.

Where the code and its tests disagree:

- `tests/test_mcommunity_base.py:53-59` expects `''`/`[]` for an absent key. It
  also passes a `return_str` keyword that `_decode` does not accept.
- The `call_count == 3` assertion at `tests/test_mcommunity_base.py:34` comes
  after the raising call, so it is never reached. `SearchExhausted` states what
  that assertion meant.
- `tests/test_mcommunity_user.py:181` expects a warning. The code raises
  `UserWarning` as an exception, so `PopulateServiceEntitlements` returns
  `Fail(UserWarning(...))`.
- `tests/test_mcommunity_group.py:55-62` expects a second group to have its own
  members. See "## Findings".

## Model

| member | source | states |
|---|---|---|
| MCommunityBase.Decode | mcommunity/mcommunity_base.py:65-84 | an empty result gives `''`; `None` exactly for a key absent from an existing record; a list comes back unchanged (same elements, same order) unless the flag is set and it has one element, which is then returned as a string; a single byte string is returned as its text whatever the flag |
| MCommunityBase.DecodeCollapses | mcommunity/mcommunity_base.py:79-84 | decoding with the flag set equals decoding without it and then collapsing a one-element list |
| MCommunityBase.DecodeTruthy | mcommunity/mcommunity_base.py:73-84 | the decoded value is truthy exactly when the first record holds a non-empty value for the key (a collapsed single element must itself be non-empty) |
| MCommunityBase.RetryFrom | mcommunity/mcommunity_base.py:50-60 | the reference retry policy from attempt `i`: at most `4-i` attempts and no more pauses than attempts; a retried exception (`SERVER_DOWN`, `UNAVAILABLE`) never comes out except as the final `UNAVAILABLE` |
| MCommunityBase.Search | mcommunity/mcommunity_base.py:45-60 | the loop returns exactly the result, attempt count and pauses of the retry policy `RetryFrom` from attempt 1 |
| MCommunityBase.RetryFromShape | mcommunity/mcommunity_base.py:50-60 | from attempt `i`, at most `4-i` attempts; `UNAVAILABLE` from exhaustion means all remaining attempts were made and each paused; otherwise one pause fewer than attempts; the k-th pause is `(i+k)*5` |
| MCommunityBase.SearchBackoff | mcommunity/mcommunity_base.py:50-59 | a search makes 1 to 3 attempts and its pauses are a prefix of `[5, 10, 15]`, strictly increasing |
| MCommunityBase.SearchReturnsFirstAnswer | mcommunity/mcommunity_base.py:50-56 | the search returns `records` exactly when some attempt answered `records` and every earlier attempt failed transiently |
| MCommunityBase.SearchExhausted | mcommunity/mcommunity_base.py:50-60 | `UNAVAILABLE` is raised by exhaustion exactly when all three attempts fail transiently, and then after exactly 3 attempts and the pauses `[5, 10, 15]`, with no fourth attempt |
| MCommunityBase.SearchFatal | mcommunity/mcommunity_base.py:51-57 | a non-transient error on attempt `k` after transient failures propagates: `k` attempts, `k-1` pauses; with `k = 1` (a bad bind) no retry and no pause |
| MCommunityUser.HighestTier | mcommunity/mcommunity_user.py:99-114 | the result is one of the 7 tiers or `NA`; `NA` exactly when no tier is a substring of the role text; a tier is chosen only if it is a substring and no higher tier is |
| MCommunityUser.HighestTierOfRoles | mcommunity/mcommunity_user.py:98-114 | on a role list, the space join makes the chain pick the first tier that some single role contains, and `NA` when no role contains any tier |
| MCommunityUser.TierPrecedence | mcommunity/mcommunity_user.py:98-114 | a role containing tier `k` means the result is tier `k` or a higher one |
| MCommunityUser.StringRolesHaveNoTier | mcommunity/mcommunity_user.py:98-114 | when the roles attribute is one byte string, the join separates its characters, so the highest affiliation is `NA` |
| MCommunityUser.RoleText | mcommunity/mcommunity_user.py:98 | `' '.join(affiliations)`: an empty list gives `''` and a one-element list its element; a plain string gives its characters at the even positions with a space between each two |
| MCommunityUser.JoinCharsLayout | mcommunity/mcommunity_user.py:98 | joining a string's characters with spaces gives length `2n-1`, character `k` at position `2k` and spaces between |
| MCommunityUser.TierWords | mcommunity/mcommunity_user.py:99-112 | each tier name has at least two characters and no space |
| Text.ContainsJoin | mcommunity/mcommunity_user.py:98 | a space-free word occurs in the space-joined list exactly when it occurs in one element |
| MCommunityUser.Scan | mcommunity/mcommunity_user.py:53-59 | the reference scan: no records gives not eligible; the only exceptions are the JSON parse error and the `.get` on a non-object |
| MCommunityUser.ScanEligible | mcommunity/mcommunity_user.py:51-59 | the scan answers eligible exactly when some record has `system == service` and an eligibility in `{yes, yesDelay, yesImmed}`, and every record before it parses to an object (a matching system with another eligibility does not stop the scan) |
| MCommunityUser.ScanWellFormed | mcommunity/mcommunity_user.py:51-59 | when every record parses to an object, the answer is whether some record grants the service; other fields play no part |
| MCommunityUser.ScanRaises | mcommunity/mcommunity_user.py:53-56 | the scan raises `e` exactly when some record is not a JSON object, every record before it is an object that does not grant the service, and `e` is that record's error |
| MCommunityUser.ScanEntitlements | mcommunity/mcommunity_user.py:51-59 | the flag-and-break loop gives the answer of the reference scan `Scan`, including the JSON errors |
| MCommunityUser.IsUmNumbered | mcommunity/mcommunity_user.py:70 | `re.match('^um[0-9]+', name)` succeeds exactly when some prefix of the name of length at least 3 is `um` followed by digits only |
| MCommunityUser.SponsorshipType | mcommunity/mcommunity_user.py:69-77 | 0 exactly when the highest affiliation is not `SponsoredAffiliate`; otherwise 3 exactly for `um` plus a digit; 2 exactly for an identifier starting with `99`; 1 otherwise; a non-string identifier raises `TypeError` |
| MCommunityUser.PopulatedRoles | mcommunity/mcommunity_user.py:84-89 | a truthy field is kept; otherwise the uncollapsed decode of `umichInstRoles` (a list unchanged, a byte string as text), or `[]` when that decode is falsy or absent |
| MCommunityUser.PopulatedRolesIdempotent | mcommunity/mcommunity_user.py:84 | populating twice equals populating once |
| MCommunityUser.PopulatedEntitlements | mcommunity/mcommunity_user.py:121-122 | a truthy field is kept; otherwise, read from the raw record: `''` for an empty result, `None` when the attribute is absent, the list unchanged (never collapsed), a single byte string as its text; an empty result implies the old field was empty too |
| MCommunityUser.PopulatedEntitlementsIdempotent | mcommunity/mcommunity_user.py:121 | populating the entitlements twice equals populating them once |
| MCommunityUser.EntitlementCheck | mcommunity/mcommunity_user.py:51-59 | an empty field on a user not found, or without the attribute, raises `UserWarning`; a populated list is scanned, a populated string character by character; an empty decoded list or byte string raises, and a non-empty one is scanned (a byte string as its characters) |
| MCommunityUser.User.constructor | mcommunity/mcommunity_user.py:26-39 | name, filter `uid=<name>` and e-mail `<name>@umich.edu`; not found: error `No user found in MCommunity for <name>`, `exists` false, id and display name `''`; found: `exists` true, id and display name the collapsed decodes; derived fields empty |
| MCommunityUser.User.PopulateAffiliations | mcommunity/mcommunity_user.py:79-89 | only the affiliations change, to `PopulatedRoles` of their old value |
| MCommunityUser.User.PopulateHighestAffiliation | mcommunity/mcommunity_user.py:91-114 | the affiliations are populated once, and the highest affiliation is recomputed as the tier chain on their join |
| MCommunityUser.User.PopulateServiceEntitlements | mcommunity/mcommunity_user.py:116-125 | the field becomes `PopulatedEntitlements` of its old value, and the call raises `UserWarning` exactly when it is still empty |
| MCommunityUser.User.CheckServiceEntitlement | mcommunity/mcommunity_user.py:44-59 | the service defaults to `enterprise`; the field is populated as above, and the answer is `EntitlementCheck` of the old field |
| MCommunityUser.User.CheckSponsorshipType | mcommunity/mcommunity_user.py:61-77 | the highest affiliation is populated only if it is empty, otherwise nothing changes; the answer is `SponsorshipType` |
| MCommunityUser.NewUser | mcommunity/mcommunity_user.py:26-39 | a search that raises leaves no user; otherwise a fresh user initialised with the search result, including an empty one |
| MCommunityUser.NotFoundUserClassification | mcommunity/mcommunity_user.py:34-35 | a user that is not found has tier `NA` and sponsorship type 0, and checking its entitlements raises `UserWarning` |
| MCommunityGroup.FirstRdn | mcommunity/mcommunity_group.py:38 | `explode_dn(dn)[0]`: `IndexError` exactly for an empty DN; otherwise a prefix of the DN without a comma, followed in the DN by a comma or the end |
| MCommunityGroup.AfterFirstUid | mcommunity/mcommunity_group.py:38 | `split('uid=')[1]` raises `IndexError` exactly when the RDN holds no `uid=`; otherwise it is the text after the first `uid=`, up to the next `uid=` (none inside it) or the end |
| MCommunityGroup.MemberUid | mcommunity/mcommunity_group.py:38 | one member DN fails exactly when it is empty or its first RDN holds no `uid=`, and then with `IndexError` |
| MCommunityGroup.ParseMembers | mcommunity/mcommunity_group.py:37-38 | the loop appends at most one uid per DN and one per DN when nothing fails; the only error it stops on is `IndexError` |
| MCommunityGroup.MemberValues | mcommunity/mcommunity_group.py:37 | `.get('member', [])` as iterated: a list of DNs is used unchanged; an absent attribute or an empty byte string gives nothing; iterating a non-empty byte string gives integers, and the first one fails: `IndexError` when it is 0 (`explode_dn` returns `[]` for a falsy DN), `TypeError` otherwise |
| MCommunityGroup.ParsedMembers | mcommunity/mcommunity_group.py:37-38 | the member loop of a found group: it raises `TypeError` exactly when the attribute is a non-empty byte string whose first byte is not 0, and otherwise only `IndexError`; never more uids than DNs |
| MCommunityGroup.ParseMembersPositions | mcommunity/mcommunity_group.py:37-38 | the appended uids are the parses of the DNs in order, one per DN at its own position; they stop short of the end exactly at the DN that failed, whose error is raised |
| MCommunityGroup.ParseMembersComplete | mcommunity/mcommunity_group.py:37-38 | no error exactly when every DN parses, and then there is one uid per DN at its position: nothing is dropped or reordered |
| MCommunityGroup.MissingMemberAttribute | mcommunity/mcommunity_group.py:37 | a record without `member` appends nothing |
| MCommunityGroup.MemberUidOfDn | mcommunity/mcommunity_group.py:38 | the DN `uid=<u>,<rest>` gives `u` when `u` holds no comma and no `uid=` |
| MCommunityGroup.DuplicateMembersKept | mcommunity/mcommunity_group.py:37-38 | the same member DN listed twice gives its uid twice: no deduplication |
| MCommunityGroup.MemberList.constructor | mcommunity/mcommunity_group.py:14 | the one class-level member list starts empty |
| MCommunityGroup.MemberList.AppendParsed | mcommunity/mcommunity_group.py:37-38 | the loop appends exactly the parsed uids to the list, in order, and stops with the first parse error |
| MCommunityGroup.Group.constructor | mcommunity/mcommunity_group.py:26-35 | name, filter `cn=<name>`, the search result, `exists` true, the shared member list, and no resolved users yet |
| MCommunityGroup.Group.PopulateMembersUsers | mcommunity/mcommunity_group.py:40-48 | a non-empty list is returned unchanged; otherwise, if every lookup succeeds, one fresh user per member in order, named after the member; the result always equals the field; a failure is the error of the first lookup that raises, all earlier ones having succeeded, and leaves the field as it was |
| MCommunityGroup.NewGroup | mcommunity/mcommunity_group.py:19-38 | a search error propagates; an empty result raises `MCommunity group <cn> does not exist.`, and no group is made; a non-empty shared list is left untouched; an empty one receives the parsed uids, and a parse error is raised after the uids before it were appended |
| MCommunityGroup.SecondGroupSharesMembers | mcommunity/mcommunity_group.py:36-38 | two groups built in turn share one member list, which holds the first group's members |
| MCommunityGroup.NewGroupOwnMembers | mcommunity/mcommunity_group.py:19-38 | with a list of its own, a group's members are exactly its own record's parsed uids, and it is made exactly when its search found it and every DN parses |

## Left out

- `connect` (TLS options, timeouts, the bind). It is network I/O, and the
  directory oracle stands in for it. An invalid bind is one of the
  non-transient errors the oracle can raise.
- `sleep`. Time is not modelled. The pauses are recorded in a ghost log.
- UTF-8 decoding. Byte strings are modelled as their text, so a decode error is
  not modelled.
- `json.loads`. It is an oracle parameter. Only the two fields read are kept,
  and a non-string `system` or `eligibility` is treated as absent: it can never
  match.
- `ldap.dn.explode_dn`. It is modelled as the text before the first comma, and
  an empty DN raises `IndexError`. Its escaping and normalisation rules are not
  modelled. Neither is the `DECODING_ERROR` it raises for a malformed DN.
  With `DN_FORMAT_LDAPV2` it also accepts `;` as an RDN separator.
  `BeforeComma` splits only at `,`, so a DN that uses `;` is not modelled.
- The directory oracle is a function of the query and the attempt number.
  Two separate searches with the same query therefore see the same outcomes.
  A directory whose answers change between searches is not modelled, for
  example a member listed twice in `PopulateMembersUsers`, or `cn1 == cn2` in
  `SecondGroupSharesMembers`.
- `re.match` on `^um[0-9]+` and `^99`. These are explicit prefix tests.
  `IsUmNumbered` states the pattern's meaning.
- `mcommunity_app_cn` and `mcommunity_secret`. These credential fields are only
  passed on to `connect`, so they are not modelled.
- `to_dict`. It appears in the tests but in no source file.
- Logging, the test mocks and `setup.py`. They have no behaviour in the core.
- MCommunityUser.User.PopulateServiceEntitlements: the Python method assigns the
  field and then raises. The model returns the same failure as an `Outcome`
  after the same assignment.

## Findings

| source | as written | input that shows it | evidently intended | confidence | as-written member | corrected member |
|---|---|---|---|---|---|---|
| mcommunity/mcommunity_group.py:36-38 | `members` is a class attribute that `__init__` appends to, and only while it is empty | build group A, whose record lists members, then group B, with different members | each group holds the uids of its own record (tests/test_mcommunity_group.py:55-62) | not executed | MCommunityGroup.SecondGroupSharesMembers | MCommunityGroup.NewGroupOwnMembers |
