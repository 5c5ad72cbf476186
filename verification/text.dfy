/** Characters and strings as the server's Python code sees them
    (restricted to ASCII, see README). */
module Text {

  predicate IsDigit(c: char)
  {
    '0' <= c <= '9'
  }

  predicate IsUpper(c: char)
  {
    'A' <= c <= 'Z'
  }

  predicate IsLower(c: char)
  {
    'a' <= c <= 'z'
  }

  /** The regex class `\w`: letters, digits and underscore. */
  predicate IsWordChar(c: char)
  {
    IsLower(c) || IsUpper(c) || IsDigit(c) || c == '_'
  }

  /** The regex class `[\w\.-]` used on both sides of an e-mail address. */
  predicate IsEmailChar(c: char)
  {
    IsWordChar(c) || c == '.' || c == '-'
  }

  /** `str.lower()` on one character. */
  function LowerChar(c: char): char
  {
    if IsUpper(c) then (c as int + 32) as char else c
  }

  /** `str.lower()`: the message with every upper-case letter lowered and
      every other character kept, position by position. */
  function Lower(s: string): (r: string)
    ensures |r| == |s|
    ensures forall i :: 0 <= i < |s| ==> r[i] == LowerChar(s[i])
    ensures forall i :: 0 <= i < |r| ==> !IsUpper(r[i])
  {
    if s == [] then [] else [LowerChar(s[0])] + Lower(s[1..])
  }

  /** `t` stands in `s` at index `i`. */
  ghost predicate OccursAt(s: string, t: string, i: int)
  {
    0 <= i && i + |t| <= |s| && s[i..i + |t|] == t
  }

  /** `t` is a substring of `s`. */
  ghost predicate Occurs(s: string, t: string)
  {
    exists i :: OccursAt(s, t, i)
  }

  /** Python's `t in s` on strings. */
  function Contains(s: string, t: string): (b: bool)
    ensures b <==> Occurs(s, t)
  {
    if |t| > |s| then
      assert forall i :: !OccursAt(s, t, i);
      false
    else if s[..|t|] == t then
      assert OccursAt(s, t, 0);
      true
    else
      OccursPastHead(s, t);
      Contains(s[1..], t)
  }

  /** When `t` does not start `s`, it occurs in `s` exactly when it occurs
      in the rest of `s`. */
  lemma OccursPastHead(s: string, t: string)
    requires |s| > 0 && !OccursAt(s, t, 0)
    ensures Occurs(s, t) <==> Occurs(s[1..], t)
  {
    if Occurs(s, t) {
      var i :| OccursAt(s, t, i);
      assert s[1..][i - 1..i - 1 + |t|] == s[i..i + |t|];
      assert OccursAt(s[1..], t, i - 1);
    }
    if Occurs(s[1..], t) {
      var i :| OccursAt(s[1..], t, i);
      assert s[1..][i..i + |t|] == s[i + 1..i + 1 + |t|];
      assert OccursAt(s, t, i + 1);
    }
  }

  /** A string occurs at the head of any string it starts. */
  lemma OccursAtHead(t: string, rest: string)
    ensures Occurs(t + rest, t)
  {
    assert OccursAt(t + rest, t, 0);
  }

  /** What occurs in a string still occurs after something is put before it. */
  lemma OccursInTail(head: string, s: string, t: string)
    requires Occurs(s, t)
    ensures Occurs(head + s, t)
  {
    var i :| OccursAt(s, t, i);
    assert (head + s)[|head| + i..|head| + i + |t|] == s[i..i + |t|];
    assert OccursAt(head + s, t, |head| + i);
  }

  /** A string occurs in any string built around it. */
  lemma OccursInConcat(a: string, t: string, b: string)
    ensures Occurs(a + t + b, t)
  {
    assert (a + t + b)[|a|..|a| + |t|] == t;
    assert OccursAt(a + t + b, t, |a|);
  }

  /** The pieces written one after the other. */
  function Join(pieces: seq<string>): string
  {
    if |pieces| == 0 then "" else pieces[0] + Join(pieces[1..])
  }

  /** Each piece occurs in the joined text. */
  lemma {:induction false} OccursInJoin(pieces: seq<string>, k: nat)
    requires k < |pieces|
    ensures Occurs(Join(pieces), pieces[k])
    decreases k
  {
    if k == 0 {
      OccursAtHead(pieces[0], Join(pieces[1..]));
    } else {
      OccursInJoin(pieces[1..], k - 1);
      OccursInTail(pieces[0], Join(pieces[1..]), pieces[k]);
    }
  }
}
