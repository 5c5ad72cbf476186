/** Consequences of the rule-based classifier for messages of a known
    shape, including the worked examples of the classifier's behaviour. */
module ClassifierFacts {
  import opened Common
  import opened Text
  import opened Regex
  import opened Classifier

  /** A run of three to ten digits, with no digit anywhere before it and
      none right after it, is the order number, whether or not a `#` leads it. */
  lemma OrderNumberOfOnlyRun(msg: string, n: nat, len: nat)
    requires 3 <= len <= 10 && n + len <= |msg|
    requires forall k :: 0 <= k < n ==> !IsDigit(msg[k])
    requires AllIn(msg, n, n + len, IsDigit)
    requires n + len == |msg| || !IsDigit(msg[n + len])
    ensures OrderNumber(msg) == Some(msg[n..n + len])
  {
    RunLenExact(msg, n, n + len, IsDigit);
    assert ThreeDigitsAt(msg, n);
    assert FirstRunAt(msg, n);
    OrderNumberIsFirstRun(msg, n);
  }

  /** An address (address characters, `@`, address characters) with no `@`
      anywhere before it and nothing address-like touching it is the e-mail. */
  lemma EmailOfOnlyAddress(msg: string, a: nat, at: nat, b: nat)
    requires a < at && at + 1 < b <= |msg|
    requires AllIn(msg, a, at, IsEmailChar) && msg[at] == '@' && AllIn(msg, at + 1, b, IsEmailChar)
    requires forall k :: 0 <= k < a ==> msg[k] != '@'
    requires a == 0 || !IsEmailChar(msg[a - 1])
    requires b == |msg| || !IsEmailChar(msg[b])
    ensures Email(msg) == Some(msg[a..b])
  {
    assert FirstAddressSpan(msg, a, at, b);
    EmailIsFirstAddress(msg, a, at, b);
  }

  /** Every bounded order token begins with `o`, `t` or `#`, and a `#` token
      needs a word character right before it. */
  lemma OrderTokenStart(s: string, i: int, j: int)
    ensures TokenBetween(s, i, j, IsOrderToken) ==>
      (s[i] == 'o' || s[i] == 't' || (s[i] == '#' && 0 < i && IsWordChar(s[i - 1])))
  {
    if TokenBetween(s, i, j, IsOrderToken) {
      assert s[i] == s[i..j][0];
    }
  }

  /** A string that occurs at `i` starts with its first character there. */
  lemma OccursAtStart(s: string, t: string, i: int)
    ensures OccursAt(s, t, i) && |t| > 0 ==> s[i] == t[0]
  {
    if OccursAt(s, t, i) && |t| > 0 {
      assert s[i] == s[i..i + |t|][0];
    }
  }

  /** Every bounded product token begins with `p`, `t` or `d`. */
  lemma ProductTokenStart(s: string, i: int, j: int)
    ensures TokenBetween(s, i, j, IsProductToken) ==> (s[i] == 'p' || s[i] == 't' || s[i] == 'd')
  {
    if TokenBetween(s, i, j, IsProductToken) {
      assert s[i] == s[i..j][0];
    }
  }

  /** A bare `#` and digits is not taken for an order reference: `\b`
      before `#` needs a word character in front of it. The message falls
      through every test to `fallback`. */
  lemma BareHashNumberIsFallback(d: string)
    requires |d| > 0 && forall k :: 0 <= k < |d| ==> IsDigit(d[k])
    ensures RuleClassify("#" + d).intent == Fallback
  {
    var msg := "#" + d;
    assert forall k :: 0 < k < |msg| ==> msg[k] == d[k - 1];
    assert Lower(msg) == msg;
    forall i, j ensures !TokenBetween(msg, i, j, IsOrderToken) && !TokenBetween(msg, i, j, IsProductToken) {
      OrderTokenStart(msg, i, j);
      ProductTokenStart(msg, i, j);
    }
    forall i ensures !OccursAt(msg, "hello", i) && !OccursAt(msg, "hi", i) && !OccursAt(msg, "hey", i) {
      OccursAtStart(msg, "hello", i);
      OccursAtStart(msg, "hi", i);
      OccursAtStart(msg, "hey", i);
    }
  }

  /** Every bounded order token holds a `#` or an `r`. */
  lemma OrderTokenLetter(s: string, i: int, j: int)
    ensures TokenBetween(s, i, j, IsOrderToken) ==> exists k :: i <= k < j && (s[k] == '#' || s[k] == 'r')
  {
    if TokenBetween(s, i, j, IsOrderToken) {
      assert s[i] == s[i..j][0];
      if s[i] != '#' {
        assert s[i + 1] == s[i..j][1];
      }
    }
  }

  /** Every bounded product token holds an `r`, an `m` or an `s`. */
  lemma ProductTokenLetter(s: string, i: int, j: int)
    ensures TokenBetween(s, i, j, IsProductToken) ==>
      exists k :: i <= k < j && (s[k] == 'r' || s[k] == 'm' || s[k] == 's')
  {
    if TokenBetween(s, i, j, IsProductToken) {
      var t := s[i..j];
      if t == "product" || t == "price" {
        assert s[i + 1] == t[1];
      } else if t == "tell me about" {
        assert s[i + 5] == t[5];
      } else if t == "description" {
        assert s[i + 2] == t[2];
      } else {
        assert s[i + 6] == t[6];
      }
    }
  }

  /** The first letters of each greeting where it occurs. */
  lemma GreetingLetters(s: string, i: int)
    ensures OccursAt(s, "hi", i) ==> s[i] == 'h' && s[i + 1] == 'i'
    ensures OccursAt(s, "hey", i) ==> s[i] == 'h' && s[i + 1] == 'e' && s[i + 2] == 'y'
    ensures OccursAt(s, "hello", i) ==> s[i] == 'h' && s[i + 1] == 'e' && s[i + 2] == 'l'
  {
    if OccursAt(s, "hi", i) {
      assert s[i] == s[i..i + 2][0] && s[i + 1] == s[i..i + 2][1];
    }
    if OccursAt(s, "hey", i) {
      assert s[i] == s[i..i + 3][0] && s[i + 1] == s[i..i + 3][1] && s[i + 2] == s[i..i + 3][2];
    }
    if OccursAt(s, "hello", i) {
      assert s[i] == s[i..i + 5][0] && s[i + 1] == s[i..i + 5][1] && s[i + 2] == s[i..i + 5][2];
    }
  }

  /** A message that reads as a product question but holds none of the
      product words. */
  const HoodieMessage := "Do you have the blue hoodie?"

  /** The lowered question holds no `#`, `r`, `m` or `s`. */
  lemma HoodieLetters(msg: string)
    requires SameText(msg, HoodieMessage)
    ensures |msg| == 28
    ensures forall k :: 0 <= k < 28 ==>
      LowerChar(msg[k]) != '#' && LowerChar(msg[k]) != 'r' && LowerChar(msg[k]) != 'm' && LowerChar(msg[k]) != 's'
  {
    // Naming one character of the constant makes the verifier expand it
    // into its characters.
    assert HoodieMessage[0] == 'D';
  }

  /** The lowered question has an `h` only at 7, 13 and 21, followed by
      `a`, `e` and a space, and `o`. */
  lemma HoodieAitches(msg: string)
    requires SameText(msg, HoodieMessage)
    ensures forall k :: 0 <= k < 28 && LowerChar(msg[k]) == 'h' ==> k == 7 || k == 13 || k == 21
    ensures LowerChar(msg[8]) == 'a' && LowerChar(msg[14]) == 'e' && LowerChar(msg[15]) == ' '
    ensures LowerChar(msg[22]) == 'o'
  {
    // Naming one character of the constant makes the verifier expand it
    // into its characters.
    assert HoodieMessage[0] == 'D';
  }

  /** `Do you have the blue hoodie?` names no product word, so the rules
      answer `fallback`, not `product_info`; it holds no greeting either. */
  lemma HoodieIsFallback(msg: string)
    requires SameText(msg, HoodieMessage)
    ensures RuleClassify(msg).intent == Fallback
  {
    HoodieLetters(msg);
    HoodieAitches(msg);
    var low := Lower(msg);
    forall i, j ensures !TokenBetween(low, i, j, IsOrderToken) && !TokenBetween(low, i, j, IsProductToken) {
      OrderTokenLetter(low, i, j);
      ProductTokenLetter(low, i, j);
    }
    forall i ensures !OccursAt(low, "hello", i) && !OccursAt(low, "hi", i) && !OccursAt(low, "hey", i) {
      GreetingLetters(low, i);
    }
  }

  /** The message of the worked order example. */
  const OrderMessage := "Where is my order #12345, email a@b.com"

  /** `msg` reads the same as `t`, character by character. */
  predicate SameText(msg: string, t: string)
  {
    |msg| == |t| && forall k :: 0 <= k < |t| ==> msg[k] == t[k]
  }

  /** The worked example's word "order", between two spaces. */
  lemma OrderMessageWord(msg: string)
    requires SameText(msg, OrderMessage)
    ensures msg[11] == ' ' && msg[12] == 'o' && msg[13] == 'r' && msg[14] == 'd'
    ensures msg[15] == 'e' && msg[16] == 'r' && msg[17] == ' '
  {
    assert OrderMessage[11] == ' ' && OrderMessage[12] == 'o' && OrderMessage[17] == ' ';
  }

  /** The worked example's only digits, "12345" at 19. */
  lemma OrderMessageDigits(msg: string)
    requires SameText(msg, OrderMessage)
    ensures forall k :: 0 <= k < 19 ==> !IsDigit(msg[k])
    ensures msg[19] == '1' && msg[20] == '2' && msg[21] == '3' && msg[22] == '4'
    ensures msg[23] == '5' && msg[24] == ','
  {
    assert OrderMessage[19] == '1' && OrderMessage[24] == ',';
  }

  /** The worked example has no `@` before its address. */
  lemma OrderMessageNoAtSign(msg: string)
    requires SameText(msg, OrderMessage)
    ensures forall k :: 0 <= k < 32 ==> msg[k] != '@'
  {
    assert OrderMessage[31] == ' ';
  }

  /** The worked example's address, "a@b.com" at the end. */
  lemma OrderMessageAddress(msg: string)
    requires SameText(msg, OrderMessage)
    ensures |msg| == 39 && msg[31] == ' ' && msg[32] == 'a' && msg[33] == '@' && msg[34] == 'b'
    ensures msg[35] == '.' && msg[36] == 'c' && msg[37] == 'o' && msg[38] == 'm'
  {
    assert OrderMessage[31] == ' ' && OrderMessage[38] == 'm';
  }

  /** In the worked example the word "order" stands between boundaries. */
  lemma OrderExampleMatches(msg: string)
    requires SameText(msg, OrderMessage)
    ensures BoundedSearch(Lower(msg), IsOrderToken)
  {
    OrderMessageWord(msg);
    var low := Lower(msg);
    assert low[11] == ' ' && low[17] == ' ';
    assert low[12..17] == "order" by {
      assert low[12] == 'o' && low[13] == 'r' && low[14] == 'd' && low[15] == 'e' && low[16] == 'r';
    }
    assert TokenBetween(low, 12, 17, IsOrderToken);
  }

  /** The worked example's order number is "12345", without the `#`. */
  lemma OrderExampleNumber(msg: string)
    requires SameText(msg, OrderMessage)
    ensures OrderNumber(msg) == Some("12345")
  {
    OrderMessageDigits(msg);
    assert msg[19..24] == "12345";
    OrderNumberOfOnlyRun(msg, 19, 5);
  }

  /** The worked example's e-mail is "a@b.com". */
  lemma OrderExampleEmail(msg: string)
    requires SameText(msg, OrderMessage)
    ensures Email(msg) == Some("a@b.com")
  {
    OrderMessageNoAtSign(msg);
    OrderMessageAddress(msg);
    assert msg[32..39] == "a@b.com";
    EmailOfOnlyAddress(msg, 32, 33, 39);
  }

  /** The worked order example: the word "order" selects `order_status`;
      the number and the address are pulled from the message as typed. */
  lemma OrderExample(msg: string)
    requires SameText(msg, OrderMessage)
    ensures RuleClassify(msg) == Classification(OrderStatus, Entities(None, Some("12345"), Some("a@b.com")))
  {
    OrderExampleMatches(msg);
    OrderExampleNumber(msg);
    OrderExampleEmail(msg);
  }
}
