/** Player names: the cleaning the rename dialog applies, and the default
    names used when nothing is stored. */
module Names {

  import opened Wrappers

  /** Longest name kept, in characters. */
  const MaxNameLength: int := 16

  /** The characters String.prototype.trim removes: ECMAScript WhiteSpace
      and LineTerminator code points. */
  predicate IsJsWhitespace(c: char)
  {
    var n := c as int;
    n == 0x09 || n == 0x0A || n == 0x0B || n == 0x0C || n == 0x0D ||
    n == 0x20 || n == 0xA0 || n == 0x1680 || (0x2000 <= n <= 0x200A) ||
    n == 0x2028 || n == 0x2029 || n == 0x202F || n == 0x205F ||
    n == 0x3000 || n == 0xFEFF
  }

  /** Drops leading whitespace. */
  function TrimStart(s: string): (r: string)
    ensures |r| <= |s| && r == s[|s| - |r|..]
    ensures forall i :: 0 <= i < |s| - |r| ==> IsJsWhitespace(s[i])
    ensures |r| > 0 ==> !IsJsWhitespace(r[0])
  {
    if |s| > 0 && IsJsWhitespace(s[0]) then
      var r := TrimStart(s[1..]);
      assert s[1..][|s| - 1 - |r|..] == s[|s| - |r|..];
      r
    else
      s
  }

  /** Drops trailing whitespace. */
  function TrimEnd(s: string): (r: string)
    ensures |r| <= |s| && r == s[..|r|]
    ensures forall i :: |r| <= i < |s| ==> IsJsWhitespace(s[i])
    ensures |r| > 0 ==> !IsJsWhitespace(r[|r| - 1])
  {
    if |s| > 0 && IsJsWhitespace(s[|s| - 1]) then
      var r := TrimEnd(s[..|s| - 1]);
      assert s[..|s| - 1][..|r|] == s[..|r|];
      r
    else
      s
  }

  /** String.prototype.trim. A non-empty result neither starts nor ends with
      whitespace; TrimCharacterized states the full split of the input. */
  function Trim(s: string): (r: string)
    ensures |r| <= |s|
    ensures r != [] ==> !IsJsWhitespace(r[0]) && !IsJsWhitespace(r[|r| - 1])
  {
    TrimEnd(TrimStart(s))
  }

  /** `s` is `a` whitespace characters, then `r`, then whitespace. */
  predicate TrimWitness(s: string, r: string, a: int)
  {
    && 0 <= a <= |s| - |r|
    && (forall i :: 0 <= i < |r| ==> r[i] == s[a + i])
    && (forall i :: 0 <= i < a ==> IsJsWhitespace(s[i]))
    && (forall i :: a + |r| <= i < |s| ==> IsJsWhitespace(s[i]))
  }

  /** The input of trim is a run of whitespace, then the result, then a run
      of whitespace, and a non-empty result has non-whitespace ends. */
  lemma TrimCharacterized(s: string)
    ensures TrimWitness(s, Trim(s), |s| - |TrimStart(s)|)
    ensures Trim(s) != [] ==> !IsJsWhitespace(Trim(s)[0]) && !IsJsWhitespace(Trim(s)[|Trim(s)| - 1])
  {
    var t := TrimStart(s);
    var r := TrimEnd(t);
    var a := |s| - |t|;
    assert Trim(s) == r;
    assert 0 <= a <= |s| - |r|;
    forall i | 0 <= i < |r|
      ensures r[i] == s[a + i]
    {
      TrimEndAt(t, i);
      TrimStartAt(s, i);
    }
    forall i | a + |r| <= i < |s|
      ensures IsJsWhitespace(s[i])
    {
      TrimStartAt(s, i - a);
    }
  }

  /** Index form of the suffix fact about TrimStart. */
  lemma TrimStartAt(s: string, i: int)
    requires 0 <= i < |TrimStart(s)|
    ensures TrimStart(s)[i] == s[|s| - |TrimStart(s)| + i]
  {
  }

  /** Index form of the prefix fact about TrimEnd. */
  lemma TrimEndAt(t: string, i: int)
    requires 0 <= i < |TrimEnd(t)|
    ensures TrimEnd(t)[i] == t[i]
  {
  }


  /** Trim leaves nothing exactly when every character is whitespace. */
  lemma TrimEmptyIff(s: string)
    ensures Trim(s) == [] <==> forall i :: 0 <= i < |s| ==> IsJsWhitespace(s[i])
  {
    var t := TrimStart(s);
    if Trim(s) == [] {
    } else {
      assert !IsJsWhitespace(t[0]);
      assert s[|s| - |t|] == t[0];
    }
  }

  /** The cleaning step of editPlayerName: a cancelled prompt or empty input
      is rejected; otherwise the input is trimmed and cut to its first sixteen
      characters, and rejected if that leaves nothing. */
  function CleanName(input: Option<string>): (r: Option<string>)
    ensures input.None? || input.value == [] ==> r.None?
    ensures r.Some? ==> 1 <= |r.value| <= MaxNameLength
    ensures r.Some? ==> input.Some? && |r.value| <= |Trim(input.value)|
    ensures r.Some? ==> r.value == Trim(input.value)[..|r.value|]
    ensures r.Some? ==> !IsJsWhitespace(r.value[0])
    ensures r.Some? && |Trim(input.value)| <= MaxNameLength ==> r.value == Trim(input.value)
    ensures r.Some? && MaxNameLength < |Trim(input.value)| ==> r.value == Trim(input.value)[..MaxNameLength]
  {
    if input.None? || input.value == [] then None
    else
      var t := Trim(input.value);
      var clean := if |t| <= MaxNameLength then t else t[..MaxNameLength];
      if clean == [] then None else Some(clean)
  }

  /** A rename is accepted exactly when the input holds a character that is
      not whitespace. */
  lemma CleanNameAcceptsIff(input: Option<string>)
    ensures CleanName(input).Some? <==>
              input.Some? && exists i :: 0 <= i < |input.value| && !IsJsWhitespace(input.value[i])
  {
    if input.Some? {
      TrimEmptyIff(input.value);
    }
  }

  /** Because the cut happens after the trim, an accepted name can end in
      whitespace, and cleaning it again removes that: the cleaning is not
      idempotent. */
  lemma CleanNameNotIdempotent()
    ensures var once := CleanName(Some("abcdefghijklmno  x"));
            once == Some("abcdefghijklmno ") &&
            CleanName(once) == Some("abcdefghijklmno")
  {
    var s := "abcdefghijklmno  x";
    var c := "abcdefghijklmno ";
    var p := "abcdefghijklmno";
    assert !IsJsWhitespace(s[0]) && !IsJsWhitespace(s[|s| - 1]);
    assert Trim(s) == s;
    assert s[..MaxNameLength] == c;
    assert CleanName(Some(s)) == Some(c);
    assert !IsJsWhitespace(c[0]) && IsJsWhitespace(c[|c| - 1]);
    assert c[..|c| - 1] == p;
    assert !IsJsWhitespace(p[|p| - 1]);
    assert TrimEnd(c) == p;
    assert Trim(c) == p;
  }

  /** The name used when storage has none for the player: `stored || "Player N"`,
      so an empty stored string also falls back to the default. */
  function InitialName(stored: Option<string>, player: int): (name: string)
    requires player == 1 || player == 2
    ensures stored.Some? && stored.value != [] ==> name == stored.value
    ensures stored.None? || stored.value == [] ==> name == DefaultName(player)
  {
    if stored.Some? && stored.value != [] then stored.value else DefaultName(player)
  }

  function DefaultName(player: int): string
    requires player == 1 || player == 2
  {
    if player == 1 then "Player 1" else "Player 2"
  }
}
