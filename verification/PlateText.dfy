/**
 * Canonical plate text: `normalize_plate` (database_manager.py),
 * `local_normalize_text` (detection.py) and the `strip()` / `upper()`
 * steps that the matcher applies. Only ASCII text is modelled.
 */
module PlateText {

  /** Python's `str.upper` on ASCII: only 'a'..'z' change. */
  function UpperChar(c: char): char {
    if 'a' <= c <= 'z' then (c as int - 32) as char else c
  }

  function Upper(s: string): string {
    seq(|s|, i requires 0 <= i < |s| => UpperChar(s[i]))
  }

  /** The characters the pattern `[A-Z0-9]` keeps. */
  predicate IsPlateChar(c: char) {
    'A' <= c <= 'Z' || '0' <= c <= '9'
  }

  /** A canonical plate: only `[A-Z0-9]`. */
  predicate Canonical(s: string) {
    forall i :: 0 <= i < |s| ==> IsPlateChar(s[i])
  }

  /** The ASCII characters for which Python's `str.isspace` holds: space, tab, line feed,
      vertical tab, form feed, carriage return (9..13) and the separators 0x1C..0x1F. */
  predicate IsSpace(c: char) {
    c == ' ' || 9 <= c as int <= 13 || 28 <= c as int <= 31
  }

  /** Python's `str.strip()`: drop leading and trailing whitespace. */
  function Strip(s: string): string {
    StripRight(StripLeft(s))
  }

  function StripLeft(s: string): string {
    if s != [] && IsSpace(s[0]) then StripLeft(s[1..]) else s
  }

  function StripRight(s: string): string {
    if s != [] && IsSpace(s[|s| - 1]) then StripRight(s[..|s| - 1]) else s
  }

  /** What one input character contributes: its upper-case form if `[A-Z0-9]` keeps it. */
  function NormalChar(c: char): string {
    var u := UpperChar(c);
    if IsPlateChar(u) then [u] else []
  }

  /**
   * `normalize_plate` / `local_normalize_text`: upper-case the text, then
   * delete every character outside `[A-Z0-9]`.
   */
  function Normalize(s: string): (r: string)
    ensures Canonical(r)
    ensures |r| <= |s|
  {
    if s == [] then [] else NormalChar(s[0]) + Normalize(s[1..])
  }

  lemma {:induction false} NormalizeAppend(a: string, b: string)
    ensures Normalize(a + b) == Normalize(a) + Normalize(b)
  {
    if a != [] {
      assert (a + b)[1..] == a[1..] + b;
      NormalizeAppend(a[1..], b);
    } else {
      assert a + b == b;
    }
  }

  /** A canonical string is left unchanged by normalisation. */
  lemma {:induction false} NormalizeFixesCanonical(s: string)
    requires Canonical(s)
    ensures Normalize(s) == s
  {
    if s != [] {
      NormalizeFixesCanonical(s[1..]);
      assert [s[0]] + s[1..] == s;
    }
  }

  /** Normalisation is idempotent. */
  lemma NormalizeIdempotent(s: string)
    ensures Normalize(Normalize(s)) == Normalize(s)
  {
    NormalizeFixesCanonical(Normalize(s));
  }

  /** Upper-casing does not change a canonical string. */
  lemma UpperFixesCanonical(s: string)
    requires Canonical(s)
    ensures Upper(s) == s
  {
  }

  lemma {:induction false} NormalizeIgnoresLeading(s: string)
    ensures Normalize(StripLeft(s)) == Normalize(s)
  {
    if s != [] && IsSpace(s[0]) {
      NormalizeIgnoresLeading(s[1..]);
    }
  }

  lemma {:induction false} NormalizeIgnoresTrailing(s: string)
    ensures Normalize(StripRight(s)) == Normalize(s)
    decreases |s|
  {
    if s != [] && IsSpace(s[|s| - 1]) {
      var init := s[..|s| - 1];
      NormalizeIgnoresTrailing(init);
      assert s == init + [s[|s| - 1]];
      NormalizeAppend(init, [s[|s| - 1]]);
    }
  }

  /**
   * Stripping before normalising (as `add_plate_entry` and the engine
   * readers do) changes nothing: whitespace is never kept.
   */
  lemma NormalizeIgnoresStrip(s: string)
    ensures Normalize(Strip(s)) == Normalize(s)
  {
    NormalizeIgnoresLeading(s);
    NormalizeIgnoresTrailing(StripLeft(s));
  }

  /** `re.sub(r'[^A-Z0-9]', '', text)` alone: delete every character outside `[A-Z0-9]`, case untouched. */
  function KeepPlateChars(s: string): (r: string)
    ensures Canonical(r)
    ensures |r| <= |s|
    ensures Canonical(s) ==> r == s
    decreases |s|
  {
    if s == [] then []
    else
      var init := KeepPlateChars(s[..|s| - 1]);
      var c := s[|s| - 1];
      if IsPlateChar(c) then init + [c] else init
  }

  /** Filtering distributes over concatenation. */
  lemma {:induction false} KeepPlateCharsAppend(a: string, b: string)
    ensures KeepPlateChars(a + b) == KeepPlateChars(a) + KeepPlateChars(b)
    decreases |b|
  {
    if b == [] {
      assert a + b == a;
    } else {
      var init := b[..|b| - 1];
      assert (a + b)[..|a + b| - 1] == a + init;
      assert (a + b)[|a + b| - 1] == b[|b| - 1];
      KeepPlateCharsAppend(a, init);
    }
  }

  /**
   * Normalisation is exactly the two steps of the source: upper-case the
   * whole text, then delete what the pattern `[^A-Z0-9]` matches.
   */
  lemma {:induction false} NormalizeIsUpperThenFilter(s: string)
    ensures Normalize(s) == KeepPlateChars(Upper(s))
    decreases |s|
  {
    if s != [] {
      var u := UpperChar(s[0]);
      NormalizeIsUpperThenFilter(s[1..]);
      UpperCons(s);
      KeepPlateCharsOne(u);
      KeepPlateCharsAppend([u], Upper(s[1..]));
    }
  }

  /** Upper-casing works from the first character on. */
  lemma UpperCons(s: string)
    requires s != []
    ensures Upper(s) == [UpperChar(s[0])] + Upper(s[1..])
  {
  }

  /** The filter on a single character. */
  lemma KeepPlateCharsOne(c: char)
    ensures KeepPlateChars([c]) == if IsPlateChar(c) then [c] else []
  {
    assert [c][..0] == [];
  }

  /** Upper-casing first changes nothing: normalisation already upper-cases. */
  lemma NormalizeUpper(s: string)
    ensures Normalize(Upper(s)) == Normalize(s)
  {
    NormalizeIsUpperThenFilter(s);
    NormalizeIsUpperThenFilter(Upper(s));
    assert Upper(Upper(s)) == Upper(s);
  }

  /** Lower-case letters are kept, upper-cased; upper-case letters and digits are kept as they are. */
  lemma NormalizeKeepsLetters(c: char)
    ensures 'a' <= c <= 'z' ==> Normalize([c]) == [(c as int - 32) as char]
    ensures IsPlateChar(c) ==> Normalize([c]) == [c]
    ensures !IsPlateChar(UpperChar(c)) ==> Normalize([c]) == []
  {
    assert [c][1..] == [];
  }

  /** A canonical string has nothing to strip. */
  lemma StripFixesCanonical(s: string)
    requires Canonical(s)
    ensures Strip(s) == s
  {
  }

  /** The matcher's key `text.strip().upper()` is the text itself for a canonical text. */
  lemma KeyOfCanonical(s: string)
    requires Canonical(s)
    ensures Upper(Strip(s)) == s
  {
    StripFixesCanonical(s);
    UpperFixesCanonical(s);
  }
}
