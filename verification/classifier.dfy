/** The rule-based intent classifier that `parse_intent_and_entities` falls
    back to when the language model's answer cannot be used, and the
    choice between the two. */
module Classifier {
  import opened Common
  import opened Text
  import opened Regex

  /** The intent tags the chat handler dispatches on; `Other` is any tag
      (or a missing one) that the language model may return besides these. */
  datatype Intent = ProductInfo | OrderStatus | OrderTracking | Greeting | Fallback | Other

  /** The entities dictionary; a missing key and a `null` value are both `None`. */
  datatype Entities = Entities(product: Option<string>, orderNumber: Option<string>, email: Option<string>)

  /** The empty entities dictionary `{}`. */
  const NoEntities := Entities(None, None, None)

  /** The pair `(intent, entities)` returned by `parse_intent_and_entities`. */
  datatype Classification = Classification(intent: Intent, entities: Entities)

  // ---------------------------------------------------------------------
  // Word-bounded alternatives: `\b(...)\b`
  // ---------------------------------------------------------------------

  /** `s[i..j]` is an alternative accepted by `tok`, with `\b` on both sides. */
  ghost predicate TokenBetween(s: string, i: int, j: int, tok: string -> bool)
  {
    0 <= i <= j <= |s| && Boundary(s, i) && Boundary(s, j) && tok(s[i..j])
  }

  /** `re.search(r'\b(...)\b', s)` succeeds: some alternative accepted by
      `tok` stands somewhere in `s` between two word boundaries. */
  ghost predicate BoundedSearch(s: string, tok: string -> bool)
  {
    exists i, j :: TokenBetween(s, i, j, tok)
  }

  /** The literal word `w` stands at `i`, with `\b` before and after it. */
  predicate WordAt(s: string, i: nat, w: string)
  {
    i + |w| <= |s| && s[i..i + |w|] == w && Boundary(s, i) && Boundary(s, i + |w|)
  }

  /** An anchored matcher finds the leftmost bounded token: if it succeeds
      at `i` exactly when a bounded token starts at `i`, then searching with
      it succeeds exactly when a bounded token occurs anywhere. */
  lemma SearchFindsToken(s: string, m: (string, nat) -> Option<nat>, tok: string -> bool)
    requires forall i: nat :: m(s, i).Some? <==> exists j :: TokenBetween(s, i, j, tok)
    ensures FirstMatch(s, 0, m).Some? <==> BoundedSearch(s, tok)
  {
    var r := FirstMatch(s, 0, m);
    if r.Some? {
      var p := r.value.0;
      assert m(s, p).Some?;
      var j :| TokenBetween(s, p, j, tok);
      assert TokenBetween(s, p, j, tok);
    }
    if BoundedSearch(s, tok) {
      var i, j :| TokenBetween(s, i, j, tok);
      assert m(s, i).Some?;
    }
  }

  // ---------------------------------------------------------------------
  // The order / tracking pattern `\b(order|#\d+|tracking)\b`
  // ---------------------------------------------------------------------

  /** The alternatives `order`, `#\d+` and `tracking`. */
  ghost predicate IsOrderToken(t: string)
  {
    t == "order" || t == "tracking" || (|t| >= 2 && t[0] == '#' && forall k :: 1 <= k < |t| ==> IsDigit(t[k]))
  }

  /** The order pattern anchored at `i`: the end of the first alternative
      that matches there, trying them in the pattern's order. The digits
      after `#` are taken greedily; giving some back never helps, because
      there is no `\b` between two digits. */
  function OrderTokenAt(s: string, i: nat): Option<nat>
  {
    var n := RunLen(s, i + 1, IsDigit);
    if WordAt(s, i, "order") then Some(i + 5)
    else if Boundary(s, i) && i < |s| && s[i] == '#' && n >= 1 && Boundary(s, i + 1 + n) then Some(i + 1 + n)
    else if WordAt(s, i, "tracking") then Some(i + 8)
    else None
  }

  /** What the anchored order matcher accepts is a bounded order token. */
  lemma OrderTokenAtSound(s: string, i: nat)
    requires OrderTokenAt(s, i).Some?
    ensures TokenBetween(s, i, OrderTokenAt(s, i).value, IsOrderToken)
  {
    var j := OrderTokenAt(s, i).value;
    if !WordAt(s, i, "order") && !WordAt(s, i, "tracking") {
      var t := s[i..j];
      assert t[0] == '#';
      assert forall k :: 1 <= k < |t| ==> t[k] == s[i + k];
      assert IsOrderToken(t);
    }
  }

  /** A bounded `#\d+` token ends where the greedy digit run after `#` ends. */
  lemma HashTokenIsGreedy(s: string, i: nat, j: nat)
    requires TokenBetween(s, i, j, IsOrderToken)
    requires |s[i..j]| >= 2 && s[i..j][0] == '#'
    ensures s[i] == '#' && j == i + 1 + RunLen(s, i + 1, IsDigit)
  {
    var t := s[i..j];
    var n := RunLen(s, i + 1, IsDigit);
    assert AllIn(s, i + 1, j, IsDigit) by {
      forall k | i + 1 <= k < j ensures IsDigit(s[k]) {
        assert s[k] == t[k - i];
      }
    }
    RunIsMaximal(s, i + 1, j, IsDigit);
  }

  /** Every bounded order token starting at `i` is found by the anchored matcher. */
  lemma OrderTokenAtComplete(s: string, i: nat, j: nat)
    requires TokenBetween(s, i, j, IsOrderToken)
    ensures OrderTokenAt(s, i).Some?
  {
    var t := s[i..j];
    if t == "order" {
      assert WordAt(s, i, "order");
    } else if t == "tracking" {
      assert WordAt(s, i, "tracking");
    } else {
      HashTokenIsGreedy(s, i, j);
    }
  }

  /** `re.search(r'\b(order|#\d+|tracking)\b', low)`. */
  function OrderPattern(low: string): (b: bool)
    ensures b <==> BoundedSearch(low, IsOrderToken)
  {
    forall i: nat ensures OrderTokenAt(low, i).Some? <==> exists j :: TokenBetween(low, i, j, IsOrderToken) {
      if OrderTokenAt(low, i).Some? {
        OrderTokenAtSound(low, i);
      }
      if exists j :: TokenBetween(low, i, j, IsOrderToken) {
        var j :| TokenBetween(low, i, j, IsOrderToken);
        OrderTokenAtComplete(low, i, j);
      }
    }
    SearchFindsToken(low, OrderTokenAt, IsOrderToken);
    FirstMatch(low, 0, OrderTokenAt).Some?
  }

  // ---------------------------------------------------------------------
  // The product pattern `\b(product|price|tell me about|description|details)\b`
  // ---------------------------------------------------------------------

  /** The five literal alternatives of the product pattern. */
  ghost predicate IsProductToken(t: string)
  {
    t == "product" || t == "price" || t == "tell me about" || t == "description" || t == "details"
  }

  /** The product pattern anchored at `i`: the end of the first alternative
      that stands there between word boundaries. */
  function ProductTokenAt(s: string, i: nat): Option<nat>
  {
    if WordAt(s, i, "product") then Some(i + 7)
    else if WordAt(s, i, "price") then Some(i + 5)
    else if WordAt(s, i, "tell me about") then Some(i + 13)
    else if WordAt(s, i, "description") then Some(i + 11)
    else if WordAt(s, i, "details") then Some(i + 7)
    else None
  }

  /** The anchored product matcher accepts exactly the bounded product tokens. */
  lemma ProductTokenAtCorrect(s: string, i: nat)
    ensures ProductTokenAt(s, i).Some? <==> exists j :: TokenBetween(s, i, j, IsProductToken)
  {
    if ProductTokenAt(s, i).Some? {
      assert TokenBetween(s, i, ProductTokenAt(s, i).value, IsProductToken);
    }
    if exists j :: TokenBetween(s, i, j, IsProductToken) {
      var j :| TokenBetween(s, i, j, IsProductToken);
      var t := s[i..j];
      assert WordAt(s, i, t);
    }
  }

  /** `re.search(r'\b(product|price|tell me about|description|details)\b', low)`. */
  function ProductPattern(low: string): (b: bool)
    ensures b <==> BoundedSearch(low, IsProductToken)
  {
    forall i: nat ensures ProductTokenAt(low, i).Some? <==> exists j :: TokenBetween(low, i, j, IsProductToken) {
      ProductTokenAtCorrect(low, i);
    }
    SearchFindsToken(low, ProductTokenAt, IsProductToken);
    FirstMatch(low, 0, ProductTokenAt).Some?
  }

  // ---------------------------------------------------------------------
  // Greeting: `any(g in low for g in ["hello", "hi", "hey"])`
  // ---------------------------------------------------------------------

  /** A plain substring test, with no word boundaries: "this" greets. */
  function GreetingTest(low: string): (b: bool)
    ensures b <==> Occurs(low, "hello") || Occurs(low, "hi") || Occurs(low, "hey")
  {
    Contains(low, "hello") || Contains(low, "hi") || Contains(low, "hey")
  }

  // ---------------------------------------------------------------------
  // Order number: leftmost match of `#?(\d{3,10})`, group 1
  // ---------------------------------------------------------------------

  /** Three digits in a row start at `k`. */
  predicate ThreeDigitsAt(s: string, k: int)
  {
    0 <= k && k + 3 <= |s| && IsDigit(s[k]) && IsDigit(s[k + 1]) && IsDigit(s[k + 2])
  }

  /** At least three digits start at `k` exactly when the greedy digit run
      there is at least three long. */
  lemma ThreeDigitsIsRun(s: string, k: nat)
    ensures ThreeDigitsAt(s, k) <==> RunLen(s, k, IsDigit) >= 3
  {
    if ThreeDigitsAt(s, k) {
      RunIsMaximal(s, k, k + 3, IsDigit);
    }
  }

  /** `#?(\d{3,10})` anchored at `i`, giving group 1. `#?` first takes a `#`
      if there is one; `\d{3,10}` then takes as many digits as it can, up
      to ten, and at least three. If that fails after a `#`, `#?` gives the
      `#` back and the digits must start at `i`, which a `#` cannot. */
  function OrderNumberAt(s: string, i: nat): Option<string>
  {
    var afterHash := RunLen(s, i + 1, IsDigit);
    var here := RunLen(s, i, IsDigit);
    if i < |s| && s[i] == '#' && afterHash >= 3 then Some(s[i + 1..i + 1 + Min(10, afterHash)])
    else if here >= 3 then Some(s[i..i + Min(10, here)])
    else None
  }

  /** Where the digits of an order-number match at `i` begin: after the
      `#` when `#?` keeps one, at `i` otherwise. */
  function DigitsStart(s: string, i: nat): nat
  {
    if i < |s| && s[i] == '#' && RunLen(s, i + 1, IsDigit) >= 3 then i + 1 else i
  }

  /** Where the anchored order-number matcher succeeds, and what it gives. */
  lemma OrderNumberAtCases(s: string, i: nat)
    ensures DigitsStart(s, i) == i || (s[i] == '#' && DigitsStart(s, i) == i + 1)
    ensures OrderNumberAt(s, i).Some? <==> ThreeDigitsAt(s, DigitsStart(s, i))
    ensures ThreeDigitsAt(s, i) ==> OrderNumberAt(s, i).Some?
    ensures OrderNumberAt(s, i).Some? ==>
      OrderNumberAt(s, i).value == s[DigitsStart(s, i)..DigitsStart(s, i) + Min(10, RunLen(s, DigitsStart(s, i), IsDigit))]
  {
    ThreeDigitsIsRun(s, i);
    ThreeDigitsIsRun(s, i + 1);
  }

  /** A successful anchored match gives three to ten digits found in `s`. */
  lemma OrderNumberMatch(s: string, i: nat)
    requires OrderNumberAt(s, i).Some?
    ensures ThreeDigitsAt(s, DigitsStart(s, i))
    ensures OccursAt(s, OrderNumberAt(s, i).value, DigitsStart(s, i))
    ensures 3 <= |OrderNumberAt(s, i).value| <= 10
    ensures forall j :: 0 <= j < |OrderNumberAt(s, i).value| ==> IsDigit(OrderNumberAt(s, i).value[j])
  {
    OrderNumberAtCases(s, i);
    var k := DigitsStart(s, i);
    var d := OrderNumberAt(s, i).value;
    ThreeDigitsIsRun(s, k);
    assert forall j :: 0 <= j < |d| ==> d[j] == s[k + j];
  }

  /** The order number of the rule classifier: the digits of the leftmost
      `#?\d{3,10}` in the message, without the `#`. */
  function OrderNumber(msg: string): (r: Option<string>)
    ensures r.Some? ==> 3 <= |r.value| <= 10 && forall j :: 0 <= j < |r.value| ==> IsDigit(r.value[j])
    ensures r.Some? ==> Occurs(msg, r.value)
    ensures r.None? <==> forall k :: !ThreeDigitsAt(msg, k)
  {
    match FirstMatch(msg, 0, OrderNumberAt)
    case Some((p, d)) =>
      OrderNumberMatch(msg, p);
      Some(d)
    case None =>
      forall k | ThreeDigitsAt(msg, k) ensures false {
        OrderNumberAtCases(msg, k);
      }
      None
  }

  /** The leftmost place where three digits in a row start. */
  ghost predicate FirstRunAt(msg: string, k: int)
  {
    ThreeDigitsAt(msg, k) && forall k' :: 0 <= k' < k ==> !ThreeDigitsAt(msg, k')
  }

  /** With three digits in a row at `k`, the order number comes from a
      match at some `p <= k`, whose digits start at `p` or, past a `#`,
      at `p + 1`. */
  lemma LeftmostOrderDigits(msg: string, k: nat) returns (p: nat, k0: nat)
    requires ThreeDigitsAt(msg, k)
    ensures p <= k && (k0 == p || (p < |msg| && msg[p] == '#' && k0 == p + 1))
    ensures ThreeDigitsAt(msg, k0)
    ensures OrderNumber(msg) == Some(msg[k0..k0 + Min(10, RunLen(msg, k0, IsDigit))])
  {
    OrderNumberAtCases(msg, k);
    var r := FirstMatch(msg, 0, OrderNumberAt);
    p := r.value.0;
    OrderNumberAtCases(msg, p);
    k0 := DigitsStart(msg, p);
  }

  /** The digits of the leftmost match start at the leftmost run. */
  lemma FirstRunMeetsMatch(msg: string, k: nat, p: nat, k0: nat)
    requires FirstRunAt(msg, k) && ThreeDigitsAt(msg, k0) && p <= k
    requires k0 == p || (p < |msg| && msg[p] == '#' && k0 == p + 1)
    ensures k0 == k
  {
  }

  /** The order number is the leftmost run of three or more digits in the
      message, cut to its first ten digits. */
  lemma OrderNumberIsFirstRun(msg: string, k: nat)
    requires FirstRunAt(msg, k)
    ensures OrderNumber(msg) == Some(msg[k..k + Min(10, RunLen(msg, k, IsDigit))])
  {
    var p, k0 := LeftmostOrderDigits(msg, k);
    FirstRunMeetsMatch(msg, k, p, k0);
  }

  // ---------------------------------------------------------------------
  // E-mail: leftmost match of `[\w\.-]+@[\w\.-]+`
  // ---------------------------------------------------------------------

  /** An `@` at `m` with an address character on each side. */
  predicate AtSignAt(s: string, m: int)
  {
    0 < m && m + 1 < |s| && s[m] == '@' && IsEmailChar(s[m - 1]) && IsEmailChar(s[m + 1])
  }

  /** `[\w\.-]+@[\w\.-]+` anchored at `i`. The first run is greedy and must
      be followed by `@`; giving characters back cannot help, since `@` is
      not in the class. The second run is greedy. */
  function EmailAt(s: string, i: nat): Option<string>
  {
    var local := RunLen(s, i, IsEmailChar);
    var domain := RunLen(s, i + local + 1, IsEmailChar);
    if local >= 1 && i + local < |s| && s[i + local] == '@' && domain >= 1 then
      Some(s[i..i + local + 1 + domain])
    else None
  }

  /** `e` is an address: one `@`, neither first nor last, and address
      characters everywhere else. */
  ghost predicate IsAddress(e: string)
  {
    exists m :: 0 < m < |e| - 1 && e[m] == '@' && forall k :: 0 <= k < |e| && k != m ==> IsEmailChar(e[k])
  }

  /** Where the anchored e-mail matcher succeeds. */
  lemma EmailAtCases(s: string, i: nat)
    ensures EmailAt(s, i).Some? ==> i + RunLen(s, i, IsEmailChar) < |s| && AtSignAt(s, i + RunLen(s, i, IsEmailChar))
    ensures EmailAt(s, i).Some? ==> IsAddress(EmailAt(s, i).value) && OccursAt(s, EmailAt(s, i).value, i)
    ensures AtSignAt(s, i + 1) ==> EmailAt(s, i).Some?
  {
    var local := RunLen(s, i, IsEmailChar);
    if EmailAt(s, i).Some? {
      var e := EmailAt(s, i).value;
      assert forall k :: 0 <= k < |e| ==> e[k] == s[i + k];
      assert e[local] == '@';
    }
    if AtSignAt(s, i + 1) {
      assert RunLen(s, i + 1, IsEmailChar) == 0;
    }
  }

  /** The e-mail of the rule classifier: the leftmost address-shaped match,
      taken from the message as typed. */
  function Email(msg: string): (r: Option<string>)
    ensures r.Some? ==> IsAddress(r.value) && Occurs(msg, r.value)
    ensures r.None? <==> forall m :: !AtSignAt(msg, m)
  {
    match FirstMatch(msg, 0, EmailAt)
    case Some((p, e)) =>
      EmailAtCases(msg, p);
      Some(e)
    case None =>
      forall m | AtSignAt(msg, m) ensures false {
        EmailAtCases(msg, m - 1);
      }
      None
  }

  /** `msg[a..b]` is the address around the first usable `@` (at `m`),
      stretched as far as address characters go on both sides. */
  ghost predicate FirstAddressSpan(msg: string, a: int, m: int, b: int)
  {
    0 <= a < m && m + 1 < b <= |msg| && AtSignAt(msg, m) &&
    AllIn(msg, a, m, IsEmailChar) && AllIn(msg, m + 1, b, IsEmailChar) &&
    (a == 0 || !IsEmailChar(msg[a - 1])) && (b == |msg| || !IsEmailChar(msg[b])) &&
    forall m' :: 0 <= m' < m ==> !AtSignAt(msg, m')
  }

  /** The leftmost e-mail match starts a run of address characters. */
  lemma LeftmostEmailStartsRun(msg: string, p: nat)
    requires EmailAt(msg, p).Some? && forall q :: 0 <= q < p ==> EmailAt(msg, q).None?
    ensures p == 0 || !IsEmailChar(msg[p - 1])
  {
    if p > 0 {
      assert IsEmailChar(msg[p - 1]) ==> EmailAt(msg, p - 1).Some?;
    }
  }

  /** The `@` of the leftmost e-mail match is the first usable `@`. */
  lemma LeftmostEmailFirstAt(msg: string, p: nat)
    requires EmailAt(msg, p).Some? && forall q :: 0 <= q < p ==> EmailAt(msg, q).None?
    ensures forall m' :: 0 <= m' < p + RunLen(msg, p, IsEmailChar) ==> !AtSignAt(msg, m')
  {
    var m := p + RunLen(msg, p, IsEmailChar);
    forall m' | 0 <= m' < m ensures !AtSignAt(msg, m') {
      if AtSignAt(msg, m') {
        if m' < p {
          EmailAtCases(msg, m' - 1);
        }
      }
    }
  }

  /** The leftmost e-mail match spans the address around the first usable `@`. */
  lemma LeftmostEmailSpan(msg: string, p: nat, m: nat, b: nat)
    requires EmailAt(msg, p).Some? && forall q :: 0 <= q < p ==> EmailAt(msg, q).None?
    requires m == p + RunLen(msg, p, IsEmailChar) && b == m + 1 + RunLen(msg, m + 1, IsEmailChar)
    ensures FirstAddressSpan(msg, p, m, b) && EmailAt(msg, p) == Some(msg[p..b])
  {
    EmailAtCases(msg, p);
    LeftmostEmailStartsRun(msg, p);
    LeftmostEmailFirstAt(msg, p);
  }

  /** Two first-address spans of one message are the same span. */
  lemma FirstAddressSpanUnique(msg: string, a: int, m: int, b: int, a': int, m': int, b': int)
    requires FirstAddressSpan(msg, a, m, b) && FirstAddressSpan(msg, a', m', b')
    ensures a == a' && m == m' && b == b'
  {
    assert m' == m by {
      assert !(m' < m) && !(m < m');
    }
    assert a > 0 ==> !IsEmailChar(msg[a - 1]);
    assert a' > 0 ==> !IsEmailChar(msg[a' - 1]);
    assert b < |msg| ==> !IsEmailChar(msg[b]);
    assert b' < |msg| ==> !IsEmailChar(msg[b']);
  }

  /** With a usable `@` at `m`, the e-mail is the address spanning some
      first-address span. */
  lemma LeftmostAddress(msg: string, m: nat) returns (p: nat, m': nat, b': nat)
    requires AtSignAt(msg, m)
    ensures FirstAddressSpan(msg, p, m', b') && Email(msg) == Some(msg[p..b'])
  {
    EmailAtCases(msg, m - 1);
    var r := FirstMatch(msg, 0, EmailAt);
    p := r.value.0;
    m' := p + RunLen(msg, p, IsEmailChar);
    b' := m' + 1 + RunLen(msg, m' + 1, IsEmailChar);
    LeftmostEmailSpan(msg, p, m', b');
  }

  /** The e-mail is the whole address around the first usable `@`. */
  lemma EmailIsFirstAddress(msg: string, a: nat, m: nat, b: nat)
    requires FirstAddressSpan(msg, a, m, b)
    ensures Email(msg) == Some(msg[a..b])
  {
    var p, m', b' := LeftmostAddress(msg, m);
    FirstAddressSpanUnique(msg, a, m, b, p, m', b');
  }

  // ---------------------------------------------------------------------
  // The classifier
  // ---------------------------------------------------------------------

  /** The rule-based fallback classifier: the order pattern first (on the
      lowered message), then the product words, then the greeting
      substrings, otherwise `fallback`. */
  function RuleClassify(msg: string): (c: Classification)
    ensures c.intent == OrderStatus || c.intent == ProductInfo || c.intent == Greeting || c.intent == Fallback
    ensures c.intent == OrderStatus <==> BoundedSearch(Lower(msg), IsOrderToken)
    ensures c.intent == ProductInfo <==>
      !BoundedSearch(Lower(msg), IsOrderToken) && BoundedSearch(Lower(msg), IsProductToken)
    ensures c.intent == Greeting <==>
      !BoundedSearch(Lower(msg), IsOrderToken) && !BoundedSearch(Lower(msg), IsProductToken) &&
      (Occurs(Lower(msg), "hello") || Occurs(Lower(msg), "hi") || Occurs(Lower(msg), "hey"))
    ensures c.intent == OrderStatus ==> c.entities == Entities(None, OrderNumber(msg), Email(msg))
    ensures c.intent == ProductInfo ==> c.entities == Entities(Some(msg), None, None)
    ensures c.intent == Greeting || c.intent == Fallback ==> c.entities == NoEntities
  {
    var low := Lower(msg);
    if OrderPattern(low) then
      Classification(OrderStatus, Entities(None, OrderNumber(msg), Email(msg)))
    else if ProductPattern(low) then
      Classification(ProductInfo, Entities(Some(msg), None, None))
    else if GreetingTest(low) then
      Classification(Greeting, NoEntities)
    else
      Classification(Fallback, NoEntities)
  }

  /** `parse_intent_and_entities`: the language model's classification when
      its answer parsed (`remote`), otherwise the rule-based one. */
  function Classify(msg: string, remote: Option<Classification>): (c: Classification)
    ensures remote.Some? ==> c == remote.value
    ensures remote.None? ==> c == RuleClassify(msg)
    ensures remote.None? ==> c.intent != OrderTracking && c.intent != Other
    ensures remote.None? && c.intent == ProductInfo ==> c.entities.product == Some(msg)
  {
    match remote
    case Some(parsed) => parsed
    case None => RuleClassify(msg)
  }
}
