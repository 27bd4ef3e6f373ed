/**
 * Question identifiers (src/aw_watcher_ask/utils.py).
 *
 * A question identifier is accepted when every character is in `[a-z0-9.]`.
 * An invalid one is repaired by transliterating it to ASCII, lower-casing it
 * and replacing every character outside `[a-z0-9]` by a dot.
 *
 * The transliteration (the `unidecode` library) is not part of this model: it
 * is a parameter `t`, and the lemmas that need it assume only the two facts
 * bundled in `IsTransliteration`: its output is ASCII, and it leaves ASCII
 * input unchanged.
 */
module Utils {
  import opened Wrappers

  /** A character of the accepted class `[a-z0-9.]`. */
  predicate IsIdChar(c: char) {
    'a' <= c <= 'z' || '0' <= c <= '9' || c == '.'
  }

  predicate IsAscii(c: char) {
    (c as int) < 128
  }

  predicate IsAsciiString(s: string) {
    forall i :: 0 <= i < |s| ==> IsAscii(s[i])
  }

  /** What the model assumes of the transliteration library. */
  ghost predicate IsTransliteration(t: string -> string) {
    && (forall s :: IsAsciiString(t(s)))
    && (forall s :: IsAsciiString(s) ==> t(s) == s)
  }

  /**
   * The position of the first character outside `[a-z0-9.]`, which is where
   * a regular-expression search for `[^a-z0-9.]` matches; None when it finds
   * nothing.
   */
  function SearchForbidden(s: string): (r: Option<nat>)
    ensures r.Some? ==> r.value < |s| && !IsIdChar(s[r.value])
    ensures r.Some? ==> forall j :: 0 <= j < r.value ==> IsIdChar(s[j])
    ensures r.None? ==> forall j :: 0 <= j < |s| ==> IsIdChar(s[j])
  {
    if s == [] then None
    else if !IsIdChar(s[0]) then Some(0)
    else match SearchForbidden(s[1..])
      case None => None
      case Some(i) => Some(i + 1)
  }

  /** `is_valid_id`: the search for a forbidden character finds nothing. */
  function IsValidId(s: string): (r: bool)
    ensures r <==> forall i :: 0 <= i < |s| ==> IsIdChar(s[i])
  {
    SearchForbidden(s).None?
  }

  /** `str.lower` on one ASCII character. */
  function LowerChar(c: char): char {
    if 'A' <= c <= 'Z' then (c as int + 32) as char else c
  }

  /** `str.lower` on a string, which on ASCII text maps each character on its own. */
  function Lower(s: string): (r: string)
    ensures |r| == |s|
    ensures forall i :: 0 <= i < |s| ==> r[i] == LowerChar(s[i])
  {
    if s == [] then [] else [LowerChar(s[0])] + Lower(s[1..])
  }

  /** The replacement of one character by `re.sub("[^a-z0-9]", ".", ...)`. */
  function DotChar(c: char): char {
    if 'a' <= c <= 'z' || '0' <= c <= '9' then c else '.'
  }

  /** `re.sub("[^a-z0-9]", ".", s)`: every match is one character, replaced by a dot. */
  function ReplaceForbidden(s: string): (r: string)
    ensures |r| == |s|
    ensures forall i :: 0 <= i < |s| ==> r[i] == DotChar(s[i])
  {
    if s == [] then [] else [DotChar(s[0])] + ReplaceForbidden(s[1..])
  }

  /** The fate of one character of the transliterated identifier under `fix_id`. */
  function FixChar(c: char): char {
    DotChar(LowerChar(c))
  }

  /** `fix_id`: transliterate, lower-case, then replace forbidden characters. */
  function FixId(t: string -> string, s: string): (r: string)
    ensures IsValidId(r)
    ensures |r| == |t(s)|
    ensures forall i :: 0 <= i < |r| ==> r[i] == FixChar(t(s)[i])
  {
    ReplaceForbidden(Lower(t(s)))
  }

  /**
   * How `fix_id` treats each kind of character: upper-case ASCII letters are
   * lower-cased, lower-case letters, digits and dots are kept, and every
   * other character becomes a dot.
   */
  lemma FixCharClasses(c: char)
    ensures 'A' <= c <= 'Z' ==> FixChar(c) == (c as int + 32) as char && 'a' <= FixChar(c) <= 'z'
    ensures IsIdChar(c) ==> FixChar(c) == c
    ensures !IsIdChar(c) && !('A' <= c <= 'Z') ==> FixChar(c) == '.'
  {
  }

  /** A character that makes an identifier invalid wherever it appears. */
  predicate IsRejected(c: char) {
    c == ' ' || c == '_' || 'A' <= c <= 'Z' || !IsAscii(c)
  }

  /** Identifiers with a space, an underscore, an upper-case letter or a non-ASCII character are invalid. */
  lemma RejectedCharInvalidates(s: string, i: nat)
    requires i < |s| && IsRejected(s[i])
    ensures !IsValidId(s)
  {
  }

  /** A valid identifier is ASCII text. */
  lemma {:induction false} ValidIsAscii(s: string)
    requires IsValidId(s)
    ensures IsAsciiString(s)
  {
    forall i | 0 <= i < |s| ensures IsAscii(s[i]) {
      assert IsIdChar(s[i]);
    }
  }

  /** `fix_id` leaves a valid identifier unchanged. */
  lemma FixIdOfValid(t: string -> string, s: string)
    requires IsTransliteration(t)
    requires IsValidId(s)
    ensures FixId(t, s) == s
  {
    ValidIsAscii(s);
    assert t(s) == s;
    var r := FixId(t, s);
    forall i | 0 <= i < |s| ensures r[i] == s[i] {
      assert IsIdChar(s[i]);
      FixCharClasses(s[i]);
    }
  }

  /** `fix_id` is idempotent. */
  lemma FixIdIdempotent(t: string -> string, s: string)
    requires IsTransliteration(t)
    ensures FixId(t, FixId(t, s)) == FixId(t, s)
  {
    FixIdOfValid(t, FixId(t, s));
  }

  /** The identifier `main` works with: the given one when valid, else the repaired one. */
  function EffectiveId(t: string -> string, s: string): (r: string)
    ensures IsValidId(r)
    ensures IsValidId(s) ==> r == s
  {
    if IsValidId(s) then s else FixId(t, s)
  }

  /** Whichever branch `main` takes, the identifier it uses is the one `fix_id` gives. */
  lemma EffectiveIdIsFixId(t: string -> string, s: string)
    requires IsTransliteration(t)
    ensures EffectiveId(t, s) == FixId(t, s)
  {
    if IsValidId(s) {
      FixIdOfValid(t, s);
    }
  }

  /**
   * A small transliteration covering the accented letters of the
   * repository's test identifiers; like the library, it keeps ASCII text and
   * drops characters it has no entry for. It shows that `IsTransliteration`
   * can be met and lets the test cases be stated.
   */
  function LatinChar(c: char): (r: string)
    ensures IsAsciiString(r)
  {
    if IsAscii(c) then [c]
    else if c == '\U{00C3}' then "A"
    else if c == '\U{00AA}' || c == '\U{00E1}' || c == '\U{00E3}' then "a"
    else if c == '\U{00E7}' then "c"
    else if c == '\U{00EA}' then "e"
    else if c == '\U{00EF}' then "i"
    else ""
  }

  function LatinSample(s: string): string {
    if s == [] then [] else LatinChar(s[0]) + LatinSample(s[1..])
  }

  lemma ConcatAscii(a: string, b: string)
    requires IsAsciiString(a) && IsAsciiString(b)
    ensures IsAsciiString(a + b)
  {
    forall i | 0 <= i < |a + b| ensures IsAscii((a + b)[i]) {
      if i < |a| {
        assert (a + b)[i] == a[i];
      } else {
        assert (a + b)[i] == b[i - |a|];
      }
    }
  }

  lemma {:induction false} LatinSampleAscii(s: string)
    ensures IsAsciiString(LatinSample(s))
  {
    if s != [] {
      LatinSampleAscii(s[1..]);
      ConcatAscii(LatinChar(s[0]), LatinSample(s[1..]));
    }
  }

  lemma {:induction false} LatinSampleKeepsAscii(s: string)
    requires IsAsciiString(s)
    ensures LatinSample(s) == s
  {
    if s != [] {
      LatinSampleKeepsAscii(s[1..]);
      assert s == [s[0]] + s[1..];
    }
  }

  lemma LatinSampleIsTransliteration()
    ensures IsTransliteration(LatinSample)
  {
    forall s ensures IsAsciiString(LatinSample(s)) {
      LatinSampleAscii(s);
    }
    forall s | IsAsciiString(s) ensures LatinSample(s) == s {
      LatinSampleKeepsAscii(s);
    }
  }

  /** The identifier the repository's tests accept. */
  lemma TestValidIdentifier()
    ensures IsValidId("a.correct.id")
  {
  }

  /** The identifiers the repository's tests reject. */
  lemma TestInvalidIdentifiers()
    ensures !IsValidId("a string with spaces")
    ensures !IsValidId("a_string_with_underscores")
    ensures !IsValidId("AN.UPPERCASE.STRING")
    ensures !IsValidId("\U{00E3}.string.w\U{00EF}th.non\U{00E1}scii.\U{00E7}hars")
  {
    RejectedCharInvalidates("a string with spaces", 1);
    RejectedCharInvalidates("a_string_with_underscores", 1);
    RejectedCharInvalidates("AN.UPPERCASE.STRING", 0);
    RejectedCharInvalidates("\U{00E3}.string.w\U{00EF}th.non\U{00E1}scii.\U{00E7}hars", 0);
  }

  /** `fix_id` read off character by character. */
  lemma FixIdPointwise(t: string -> string, s: string, expected: string)
    requires |t(s)| == |expected|
    requires forall i :: 0 <= i < |expected| ==> FixChar(t(s)[i]) == expected[i]
    ensures FixId(t, s) == expected
  {
  }

  /** Repairing an upper-case identifier lower-cases it. */
  lemma FixUppercaseExample()
    ensures FixId(LatinSample, "AN.ID") == "an.id"
  {
    var raw := "AN.ID";
    LatinSampleKeepsAscii(raw);
    FixIdPointwise(LatinSample, raw, "an.id");
  }

  /** Repairing an identifier with spaces and underscores puts dots in their place. */
  lemma FixSeparatorsExample()
    ensures FixId(LatinSample, "a_b c") == "a.b.c"
  {
    var raw := "a_b c";
    LatinSampleKeepsAscii(raw);
    FixIdPointwise(LatinSample, raw, "a.b.c");
  }

  /** Accented letters are transliterated before the identifier is repaired. */
  lemma FixNonAsciiExample()
    ensures FixId(LatinSample, "\U{00C3}\U{00AA}n_ID") == "aan.id"
  {
    var raw := "\U{00C3}\U{00AA}n_ID";
    var tail := "n_ID";
    LatinSampleKeepsAscii(tail);
    assert raw[1..][1..] == tail;
    assert LatinSample(raw[1..]) == "a" + tail;
    assert LatinSample(raw) == "A" + ("a" + tail);
    FixIdPointwise(LatinSample, raw, "aan.id");
  }
}
