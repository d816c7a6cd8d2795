/** The names of temporary files, and how they are recognised. */
module TempNames {

  datatype Style = Dot | Windows

  const SUFFIX := ".tmp"
  const ENTROPY_LEN := 8
  const NAME_LIMIT := 200

  function PrefixOf(style: Style): string {
    if style.Dot? then ".ferry." else "~ferry~"
  }

  predicate IsHex(c: char) {
    '0' <= c <= '9' || 'a' <= c <= 'f' || 'A' <= c <= 'F'
  }

  predicate AllHex(s: string) {
    forall i :: 0 <= i < |s| ==> IsHex(s[i])
  }

  function PlainName(dest: string, style: Style, entropy: string): string {
    PrefixOf(style) + dest + SUFFIX + if entropy == "" then "" else "." + entropy
  }

  /** `digest` is the hex digest of the relative path. */
  function HashedName(digest: string, style: Style): string
    requires |digest| >= 16
  {
    PrefixOf(style) + digest[..16] + SUFFIX
  }

  /** temp_name_for: the destination's own name mangled, unless that is too long. `size` gives
      the encoded length of a name. */
  function NameFor(dest: string, style: Style, entropy: string, digest: string, size: string -> nat): string
    requires |digest| >= 16
  {
    if size(PlainName(dest, style, entropy)) > NAME_LIMIT || dest == "" then HashedName(digest, style)
    else PlainName(dest, style, entropy)
  }

  predicate StartsWith(s: string, p: string) { p <= s }

  predicate EndsWith(s: string, p: string) { |p| <= |s| && s[|s| - |p|..] == p }

  predicate OccursAt(s: string, p: string, k: int) {
    0 <= k && k + |p| <= |s| && s[k..k + |p|] == p
  }

  /** The last position at which `p` occurs, -1 if it does not. */
  function RFind(s: string, p: string): (r: int)
    ensures r == -1 || OccursAt(s, p, r)
    ensures forall k :: OccursAt(s, p, k) ==> k <= r
    decreases |s|
  {
    if |s| < |p| then -1
    else if EndsWith(s, p) then
      assert s[|s| - |p|..] == s[|s| - |p|..|s| - |p| + |p|];
      |s| - |p|
    else if s == [] then -1
    else
      var init := s[..|s| - 1];
      Shorter(s, p);
      RFind(init, p)
  }

  lemma Shorter(s: string, p: string)
    requires s != [] && !EndsWith(s, p)
    ensures forall k :: OccursAt(s, p, k) <==> OccursAt(s[..|s| - 1], p, k)
  {
    var init := s[..|s| - 1];
    forall k ensures OccursAt(s, p, k) <==> OccursAt(init, p, k) {
      if 0 <= k && k + |p| <= |init| { assert init[k..k + |p|] == s[k..k + |p|]; }
      if k + |p| == |s| && 0 <= k { assert s[k..] == s[k..k + |p|]; }
    }
  }

  predicate MatchesStyle(name: string, style: Style) {
    StartsWith(name, PrefixOf(style)) &&
    var rest := name[|PrefixOf(style)|..];
    if |rest| > |SUFFIX| && EndsWith(rest, SUFFIX) then true
    else
      var pos := RFind(rest, SUFFIX);
      pos >= 0 &&
      var tail := rest[pos + |SUFFIX|..];
      tail != "" && tail[0] == '.' && |tail| - 1 == ENTROPY_LEN && AllHex(tail[1..])
  }

  predicate IsTemp(name: string) {
    MatchesStyle(name, Dot) || MatchesStyle(name, Windows)
  }

  /** Every name the writer makes up is recognised as temporary. */
  lemma NameForIsTemp(dest: string, style: Style, entropy: string, digest: string, size: string -> nat)
    requires |digest| >= 16 && |entropy| == ENTROPY_LEN && AllHex(entropy)
    ensures IsTemp(NameFor(dest, style, entropy, digest, size))
  {
    if size(PlainName(dest, style, entropy)) > NAME_LIMIT || dest == "" {
      HashedIsTemp(digest, style);
    } else {
      PlainIsTemp(dest, style, entropy);
    }
  }

  lemma HashedIsTemp(digest: string, style: Style)
    requires |digest| >= 16
    ensures MatchesStyle(HashedName(digest, style), style)
  {
    var rest := HashedName(digest, style)[|PrefixOf(style)|..];
    assert rest == digest[..16] + SUFFIX;
    assert rest[|rest| - |SUFFIX|..] == SUFFIX;
  }

  lemma PlainIsTemp(dest: string, style: Style, entropy: string)
    requires |entropy| == ENTROPY_LEN && AllHex(entropy)
    ensures MatchesStyle(PlainName(dest, style, entropy), style)
  {
    var name := PlainName(dest, style, entropy);
    var tail := "." + entropy;
    var rest := name[|PrefixOf(style)|..];
    assert name == PrefixOf(style) + (dest + SUFFIX + tail);
    assert rest == dest + SUFFIX + tail;
    LastSuffix(dest, entropy, rest);
    assert rest[|dest| + |SUFFIX|..] == tail && tail[1..] == entropy;
  }

  lemma LastSuffix(dest: string, entropy: string, rest: string)
    requires |entropy| == ENTROPY_LEN && AllHex(entropy) && rest == dest + SUFFIX + ("." + entropy)
    ensures RFind(rest, SUFFIX) == |dest|
  {
    assert rest[|dest|..|dest| + 4] == SUFFIX;
    assert OccursAt(rest, SUFFIX, |dest|);
    forall k | OccursAt(rest, SUFFIX, k) ensures k <= |dest| {
      if k > |dest| { NotLater(dest, entropy, rest, k); }
    }
  }

  lemma NotLater(dest: string, entropy: string, rest: string, k: int)
    requires |entropy| == ENTROPY_LEN && AllHex(entropy) && rest == dest + SUFFIX + ("." + entropy)
    requires |dest| < k && k + 4 <= |rest|
    ensures !OccursAt(rest, SUFFIX, k)
  {
    var n := |dest|;
    assert SUFFIX[0] == '.' && SUFFIX[1] == 't' && SUFFIX[2] == 'm' && SUFFIX[3] == 'p';
    assert rest[n + 1] == 't' && rest[n + 2] == 'm' && rest[n + 3] == 'p';
    assert k <= n + 4 || rest[k] == entropy[k - n - 5];
    assert rest[n + 5] == entropy[0];
    assert rest[k..k + 4][0] == rest[k] && rest[k..k + 4][1] == rest[k + 1];
  }

  /** What a temporary name looks like after its prefix: a stem and `.tmp`, the stem not empty; or a
      stem, `.tmp`, a dot and eight hexadecimal digits. */
  ghost predicate Mangled(rest: string) {
    || (exists stem: string :: stem != "" && rest == stem + ".tmp")
    || (exists stem: string, entropy: string :: EightDigits(entropy) && rest == stem + ".tmp." + entropy)
  }

  predicate EightDigits(s: string) { |s| == 8 && forall i :: 0 <= i < 8 ==> s[i] in "0123456789abcdefABCDEF" }

  lemma DigitsAreHex(s: string)
    ensures EightDigits(s) <==> |s| == 8 && AllHex(s)
  {
    forall i | 0 <= i < |s| ensures IsHex(s[i]) <==> s[i] in "0123456789abcdefABCDEF" { DigitIsHex(s[i]); }
  }

  lemma DigitIsHex(c: char)
    ensures IsHex(c) <==> c in "0123456789abcdefABCDEF"
  {
    var digits := "0123456789abcdefABCDEF";
    if '0' <= c <= '9' { assert digits[(c - '0') as int] == c; }
    if 'a' <= c <= 'f' { assert digits[(c - 'a') as int + 10] == c; }
    if 'A' <= c <= 'F' { assert digits[(c - 'A') as int + 16] == c; }
  }

  /** Exactly the names with one of the two prefixes and such a rest are recognised. */
  lemma TempExactly(name: string)
    ensures IsTemp(name) <==> exists rest: string ::
              (name == ".ferry." + rest || name == "~ferry~" + rest) && Mangled(rest)
  {
    hide Mangled;
    forall style ensures MatchesStyle(name, style) <==> exists rest :: name == PrefixOf(style) + rest && Mangled(rest) {
      StyleExactly(name, style);
    }
    assert PrefixOf(Dot) == ".ferry." && PrefixOf(Windows) == "~ferry~";
    if IsTemp(name) {
      var style := if MatchesStyle(name, Dot) then Dot else Windows;
      var rest :| name == PrefixOf(style) + rest && Mangled(rest);
    }
    if rest: string :| (name == ".ferry." + rest || name == "~ferry~" + rest) && Mangled(rest) {
      assert name == PrefixOf(if name == ".ferry." + rest then Dot else Windows) + rest;
    }
  }

  lemma StyleExactly(name: string, style: Style)
    ensures MatchesStyle(name, style) <==> exists rest :: name == PrefixOf(style) + rest && Mangled(rest)
  {
    hide Mangled, RFind, AllHex;
    var prefix := PrefixOf(style);
    if prefix <= name {
      var rest := name[|prefix|..];
      assert name == prefix + rest;
      RestExactly(rest);
      assert MatchesStyle(name, style) <==> Judged(rest);
      forall r | name == prefix + r ensures r == rest { assert (prefix + r)[|prefix|..] == r; }
    }
  }

  /** The part after the prefix is judged by its last `.tmp`. */
  predicate Judged(rest: string) {
    || (|rest| > |SUFFIX| && EndsWith(rest, SUFFIX))
    || (var pos := RFind(rest, SUFFIX);
        pos >= 0 && var tail := rest[pos + |SUFFIX|..];
                    tail != "" && tail[0] == '.' && |tail| - 1 == ENTROPY_LEN && AllHex(tail[1..]))
  }

  lemma RestExactly(rest: string)
    ensures Mangled(rest) <==> Judged(rest)
  {
    hide *;
    if Judged(rest) { JudgedMangled(rest); }
    if Mangled(rest) { MangledJudged(rest); }
  }

  lemma JudgedMangled(rest: string)
    requires Judged(rest)
    ensures Mangled(rest)
  {
    hide RFind, AllHex, EightDigits;
    if |rest| > |SUFFIX| && EndsWith(rest, SUFFIX) {
      var stem := rest[..|rest| - |SUFFIX|];
      assert rest == stem + ".tmp";
    } else {
      var pos := RFind(rest, SUFFIX);
      assert rest[pos..pos + 4] == ".tmp";
      assert rest == rest[..pos] + rest[pos..pos + 4] + [rest[pos + 4]] + rest[pos + 4..][1..];
      assert rest == rest[..pos] + ".tmp." + rest[pos + 4..][1..];
      DigitsAreHex(rest[pos + 4..][1..]);
    }
  }

  lemma MangledJudged(rest: string)
    requires Mangled(rest)
    ensures Judged(rest)
  {
    hide RFind, AllHex, EightDigits;
    if stem: string :| stem != "" && rest == stem + ".tmp" {
      assert rest[|rest| - 4..] == ".tmp";
    } else {
      var stem: string, entropy: string :| EightDigits(entropy) && rest == stem + ".tmp." + entropy;
      DigitsAreHex(entropy);
      assert rest == stem + SUFFIX + ("." + entropy);
      LastSuffix(stem, entropy, rest);
      assert rest[|stem| + 4..] == "." + entropy;
      assert ("." + entropy)[1..] == entropy;
    }
  }
}
