/**
 * The directory-access layer shared by users and groups: the shape of a raw
 * search result, the attribute decoder, and the search that retries while the
 * directory is transiently unreachable.
 */
module MCommunityBase {
  import opened Text

  /** The exceptions the core raises or lets through. */
  datatype Error =
    | ServerDown                  // ldap.SERVER_DOWN
    | Unavailable                 // ldap.UNAVAILABLE
    | InvalidCredentials          // ldap.INVALID_CREDENTIALS, raised by the bind
    | OtherLdapError(code: nat)   // any other ldap.LDAPError
    | NameError(message: string)
    | UserWarning(message: string)
    | IndexError
    | TypeError
    | AttributeError
    | JsonDecodeError

  datatype Result<+T> = Ok(value: T) | Err(error: Error)

  /** A call that returns nothing or raises. */
  datatype Outcome = Pass | Fail(error: Error)

  /**
   * One attribute as the directory returns it: a single byte string (never seen
   * in practice) or a list of byte strings. Bytes are modelled as their text.
   */
  datatype AttrValue = Bytes(text: string) | Values(items: seq<string>)

  /** One `(dn, attributes)` pair of a search result. */
  datatype Entry = Entry(dn: string, attrs: map<string, AttrValue>)

  /** What a search returns: empty when nothing matched. */
  type RawResult = seq<Entry>

  /** What the decoder returns: a `str`, a `list` of `str`, or `None`. */
  datatype Decoded = Str(s: string) | Strs(items: seq<string>) | NoValue

  /** Python truthiness of a decoded value. */
  predicate Truthy(d: Decoded) {
    match d
    case Str(s) => s != ""
    case Strs(xs) => xs != []
    case NoValue => false
  }

  /** The value `dict.get(key, '')` finds: an attribute, or the `str` default. */
  datatype Lookup = Found(v: AttrValue) | DefaultStr

  /**
   * `_decode`: reads `key` in the first entry. An empty result gives `''`
   * whatever the flag; a key the entry lacks gives the default `''`, which is
   * neither bytes nor a list, so the function falls off its end and gives `None`.
   */
  function Decode(raw: RawResult, key: string, collapseSingle: bool): (d: Decoded)
    ensures raw == [] ==> d == Str("")
    ensures d == NoValue <==> raw != [] && key !in raw[0].attrs
    ensures d.Strs? <==>
      raw != [] && key in raw[0].attrs && raw[0].attrs[key].Values? &&
      !(collapseSingle && |raw[0].attrs[key].items| == 1)
    ensures d.Strs? ==> d.items == raw[0].attrs[key].items
    ensures raw != [] && d.Str? ==>
      raw[0].attrs[key] == Bytes(d.s) ||
      (collapseSingle && raw[0].attrs[key].Values? && raw[0].attrs[key].items == [d.s])
  {
    if raw == [] then Str("")
    else
      var value := if key in raw[0].attrs then Found(raw[0].attrs[key]) else DefaultStr;
      match value
      case Found(Bytes(text)) => Str(text)
      case Found(Values(items)) =>
        if collapseSingle && |items| == 1 then Str(items[0]) else Strs(items)
      case DefaultStr => NoValue
  }

  /** Turns a one-element list into its element, as the collapsing flag does. */
  function Collapse(d: Decoded): Decoded {
    if d.Strs? && |d.items| == 1 then Str(d.items[0]) else d
  }

  /** Decoding with the flag set is decoding without it, then collapsing. */
  lemma DecodeCollapses(raw: RawResult, key: string)
    ensures Decode(raw, key, true) == Collapse(Decode(raw, key, false))
  {
  }

  /** The decoded value is truthy exactly when the first entry holds a non-empty value for the key. */
  lemma DecodeTruthy(raw: RawResult, key: string, collapseSingle: bool)
    ensures Truthy(Decode(raw, key, collapseSingle)) <==>
      raw != [] && key in raw[0].attrs &&
      match raw[0].attrs[key]
      case Bytes(text) => text != ""
      case Values(items) => items != [] && (collapseSingle && |items| == 1 ==> items[0] != "")
  {
  }

  // ---------------------------------------------------------------- search

  /** The request one `search` call sends: base, filter and attribute list. */
  datatype Query = Query(base: string, filter: string, attributes: seq<string>)

  /** How one attempt (connect, bind, `search_st`) ends. */
  datatype Attempt = Answer(records: RawResult) | Raised(error: Error)

  /**
   * The directory as the client sees it: the outcome of attempt number `n`
   * (counting from 1) of a query, each attempt on a connection of its own.
   */
  type Directory = (Query, nat) -> Attempt

  /** The two exception classes `search` retries on. */
  predicate IsTransient(e: Error) {
    e.ServerDown? || e.Unavailable?
  }

  const MaxAttempts: nat := 3

  /** The pause after failed attempt `i`, in seconds. */
  function Backoff(i: nat): nat {
    i * 5
  }

  /** What a search call produced, how many connections it opened, and the pauses it made. */
  datatype Trace = Trace(result: Result<RawResult>, attempts: nat, sleeps: seq<nat>)

  /** The retry policy from attempt `i` on. */
  function RetryFrom(dir: Directory, q: Query, i: nat): (t: Trace)
    requires 1 <= i <= MaxAttempts + 1
    ensures t.attempts <= MaxAttempts + 1 - i && |t.sleeps| <= t.attempts
    ensures t.result.Err? && IsTransient(t.result.error) ==> t.result.error == Unavailable
    decreases MaxAttempts + 1 - i
  {
    if i > MaxAttempts then Trace(Err(Unavailable), 0, [])
    else match dir(q, i)
      case Answer(records) => Trace(Ok(records), 1, [])
      case Raised(e) =>
        if IsTransient(e) then
          var rest := RetryFrom(dir, q, i + 1);
          Trace(rest.result, 1 + rest.attempts, [Backoff(i)] + rest.sleeps)
        else Trace(Err(e), 1, [])
  }

  /** Attempt `k` of query `q` failed with a retried exception. */
  predicate FailedTransiently(dir: Directory, q: Query, k: nat) {
    dir(q, k).Raised? && IsTransient(dir(q, k).error)
  }

  /**
   * `search`: at most three attempts, each on a fresh connection; the first
   * answer is returned; after a transient failure on attempt `i` it sleeps
   * `i * 5`; any other exception propagates at once; three transient failures
   * end in `UNAVAILABLE`.
   */
  method Search(dir: Directory, q: Query) returns (r: Result<RawResult>, attempts: nat, ghost sleeps: seq<nat>)
    ensures r == RetryFrom(dir, q, 1).result
    ensures attempts == RetryFrom(dir, q, 1).attempts
    ensures sleeps == RetryFrom(dir, q, 1).sleeps
  {
    ghost var whole := RetryFrom(dir, q, 1);
    attempts, sleeps := 0, [];
    for i := 1 to MaxAttempts + 1
      invariant attempts == i - 1
      invariant whole.result == RetryFrom(dir, q, i).result
      invariant whole.attempts == attempts + RetryFrom(dir, q, i).attempts
      invariant whole.sleeps == sleeps + RetryFrom(dir, q, i).sleeps
    {
      attempts := attempts + 1;
      var outcome := dir(q, i);
      match outcome
      case Answer(records) =>
        r := Ok(records);
        return;
      case Raised(e) =>
        if !IsTransient(e) {
          r := Err(e);
          return;
        }
        RetryAfterTransient(dir, q, i, sleeps);
        sleeps := sleeps + [Backoff(i)];
    }
    r := Err(Unavailable);
  }

  /** After a transient failure on attempt `i`, the trace from `i` is one pause more than the trace from `i + 1`. */
  lemma RetryAfterTransient(dir: Directory, q: Query, i: nat, before: seq<nat>)
    requires 1 <= i <= MaxAttempts && FailedTransiently(dir, q, i)
    ensures RetryFrom(dir, q, i).result == RetryFrom(dir, q, i + 1).result
    ensures RetryFrom(dir, q, i).attempts == 1 + RetryFrom(dir, q, i + 1).attempts
    ensures before + RetryFrom(dir, q, i).sleeps == (before + [Backoff(i)]) + RetryFrom(dir, q, i + 1).sleeps
  {
    assert RetryFrom(dir, q, i).sleeps == [Backoff(i)] + RetryFrom(dir, q, i + 1).sleeps;
  }

  /** From attempt `i` on, at most the remaining attempts are made and the pauses are `i*5, (i+1)*5, ...`. */
  lemma {:induction false} RetryFromShape(dir: Directory, q: Query, i: nat)
    requires 1 <= i <= MaxAttempts + 1
    ensures var t := RetryFrom(dir, q, i);
      t.attempts <= MaxAttempts + 1 - i &&
      (i <= MaxAttempts ==> 1 <= t.attempts) &&
      (t.result == Err(Unavailable) ==> t.attempts == |t.sleeps| == MaxAttempts + 1 - i) &&
      (t.result != Err(Unavailable) ==> |t.sleeps| == t.attempts - 1) &&
      forall k :: 0 <= k < |t.sleeps| ==> t.sleeps[k] == Backoff(i + k)
    decreases MaxAttempts + 1 - i
  {
    if i <= MaxAttempts && FailedTransiently(dir, q, i) {
      RetryFromShape(dir, q, i + 1);
      var rest := RetryFrom(dir, q, i + 1);
      var t := RetryFrom(dir, q, i);
      assert t.sleeps == [Backoff(i)] + rest.sleeps;
      forall k | 0 < k < |t.sleeps| ensures t.sleeps[k] == Backoff(i + k) {
        assert t.sleeps[k] == rest.sleeps[k - 1];
      }
    }
  }

  /** A search makes one to three attempts, and its pauses are a prefix of 5, 10, 15, strictly increasing. */
  lemma SearchBackoff(dir: Directory, q: Query)
    ensures var t := RetryFrom(dir, q, 1);
      1 <= t.attempts <= MaxAttempts &&
      |t.sleeps| <= MaxAttempts &&
      t.sleeps == [5, 10, 15][..|t.sleeps|] &&
      forall j, k :: 0 <= j < k < |t.sleeps| ==> t.sleeps[j] < t.sleeps[k]
  {
    RetryFromShape(dir, q, 1);
    var t := RetryFrom(dir, q, 1);
    assert forall k :: 0 <= k < |t.sleeps| ==> t.sleeps[k] == [5, 10, 15][k];
  }

  /** Every attempt from `i` up to (but not including) `k` failed transiently. */
  predicate TransientBetween(dir: Directory, q: Query, i: nat, k: nat) {
    forall j :: i <= j < k ==> FailedTransiently(dir, q, j)
  }

  /** The search answers `records` exactly when some attempt answered it and every earlier one failed transiently. */
  lemma {:induction false} RetryFromAnswer(dir: Directory, q: Query, i: nat, records: RawResult)
    requires 1 <= i <= MaxAttempts + 1
    ensures RetryFrom(dir, q, i).result == Ok(records) <==>
      exists k :: i <= k <= MaxAttempts && dir(q, k) == Answer(records) && TransientBetween(dir, q, i, k)
    decreases MaxAttempts + 1 - i
  {
    if i <= MaxAttempts {
      RetryFromAnswer(dir, q, i + 1, records);
      if FailedTransiently(dir, q, i) {
        if exists k :: i + 1 <= k <= MaxAttempts && dir(q, k) == Answer(records) && TransientBetween(dir, q, i + 1, k) {
          var k :| i + 1 <= k <= MaxAttempts && dir(q, k) == Answer(records) && TransientBetween(dir, q, i + 1, k);
          assert TransientBetween(dir, q, i, k);
        }
        if exists k :: i <= k <= MaxAttempts && dir(q, k) == Answer(records) && TransientBetween(dir, q, i, k) {
          var k :| i <= k <= MaxAttempts && dir(q, k) == Answer(records) && TransientBetween(dir, q, i, k);
          assert k != i;
          assert TransientBetween(dir, q, i + 1, k);
        }
      }
    }
  }

  /** The first answer is what the search returns. */
  lemma SearchReturnsFirstAnswer(dir: Directory, q: Query, records: RawResult)
    ensures RetryFrom(dir, q, 1).result == Ok(records) <==>
      exists k :: 1 <= k <= MaxAttempts && dir(q, k) == Answer(records) && TransientBetween(dir, q, 1, k)
  {
    RetryFromAnswer(dir, q, 1, records);
  }

  /**
   * `UNAVAILABLE` comes out exactly when all three attempts failed transiently,
   * and then after exactly three attempts and the pauses 5, 10, 15.
   */
  lemma SearchExhausted(dir: Directory, q: Query)
    ensures RetryFrom(dir, q, 1).result == Err(Unavailable) <==> TransientBetween(dir, q, 1, MaxAttempts + 1)
    ensures RetryFrom(dir, q, 1).result == Err(Unavailable) ==>
      RetryFrom(dir, q, 1).attempts == 3 && RetryFrom(dir, q, 1).sleeps == [5, 10, 15]
  {
    RetryFromShape(dir, q, 1);
    var t := RetryFrom(dir, q, 1);
    if TransientBetween(dir, q, 1, MaxAttempts + 1) {
      assert FailedTransiently(dir, q, 1) && FailedTransiently(dir, q, 2) && FailedTransiently(dir, q, 3);
    }
    if t.result == Err(Unavailable) {
      assert FailedTransiently(dir, q, 1);
      assert FailedTransiently(dir, q, 2);
      assert FailedTransiently(dir, q, 3);
    }
  }

  /** Any other exception on attempt `k` propagates from there; no later attempt is made. */
  lemma {:induction false} SearchFatal(dir: Directory, q: Query, k: nat, e: Error)
    requires 1 <= k <= MaxAttempts && TransientBetween(dir, q, 1, k)
    requires dir(q, k) == Raised(e) && !IsTransient(e)
    ensures RetryFrom(dir, q, 1).result == Err(e)
    ensures RetryFrom(dir, q, 1).attempts == k && |RetryFrom(dir, q, 1).sleeps| == k - 1
  {
    assert RetryFrom(dir, q, k) == Trace(Err(e), 1, []);
    if k >= 2 {
      assert FailedTransiently(dir, q, k - 1);
      assert RetryFrom(dir, q, k - 1).attempts == 2;
      if k == 3 {
        assert FailedTransiently(dir, q, 1);
      }
    }
  }
}
