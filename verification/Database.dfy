/**
 * The watch-list store of database_manager.py: the global set
 * `database_entries`, its load-time parse, `save_database`,
 * `add_plate_entry` and `remove_selected_plate`. File access is replaced by
 * the file's text.
 */
module Database {
  import opened Wrappers
  import opened PlateText

  /** Python's `<` on `str`: lexicographic by code point, a proper prefix first. */
  predicate LexLess(a: string, b: string)
    decreases |a|
  {
    if a == [] then b != []
    else if b == [] then false
    else if a[0] != b[0] then a[0] < b[0]
    else LexLess(a[1..], b[1..])
  }

  lemma {:induction false} LexIrreflexive(a: string)
    ensures !LexLess(a, a)
  {
    if a != [] {
      LexIrreflexive(a[1..]);
    }
  }

  lemma {:induction false} LexTransitive(a: string, b: string, c: string)
    requires LexLess(a, b) && LexLess(b, c)
    ensures LexLess(a, c)
    decreases |a|
  {
    if a != [] && b != [] && c != [] && a[0] == b[0] == c[0] {
      LexTransitive(a[1..], b[1..], c[1..]);
    }
  }

  lemma {:induction false} LexTotal(a: string, b: string)
    requires a != b
    ensures LexLess(a, b) || LexLess(b, a)
    decreases |a|
  {
    if a != [] && b != [] && a[0] == b[0] {
      assert a == [a[0]] + a[1..] && b == [b[0]] + b[1..];
      LexTotal(a[1..], b[1..]);
    }
  }

  lemma LexAsymmetric()
    ensures forall a, b :: LexLess(a, b) ==> !LexLess(b, a)
  {
    forall a, b | LexLess(a, b)
      ensures !LexLess(b, a)
    {
      if LexLess(b, a) {
        LexTransitive(a, b, a);
        LexIrreflexive(a);
      }
    }
  }

  /** `m` comes first among the strings of `s`. */
  predicate IsLeast(m: string, s: set<string>) {
    m in s && forall x :: x in s && x != m ==> LexLess(m, x)
  }

  lemma {:induction false} LeastExists(s: set<string>)
    requires s != {}
    ensures exists m :: IsLeast(m, s)
    decreases |s|
  {
    var x :| x in s;
    if s != {x} {
      var rest := s - {x};
      LeastExists(rest);
      var m' :| IsLeast(m', rest);
      LexTotal(x, m');
      if LexLess(x, m') {
        forall y | y in s && y != x
          ensures LexLess(x, y)
        {
          if y != m' {
            LexTransitive(x, m', y);
          }
        }
        assert IsLeast(x, s);
      } else {
        assert IsLeast(m', s);
      }
    } else {
      assert IsLeast(x, s);
    }
  }

  /** Every earlier string is strictly smaller: sorted and without repeats. */
  predicate StrictlySorted(order: seq<string>) {
    forall i, j :: 0 <= i < j < |order| ==> LexLess(order[i], order[j])
  }

  /** `sorted(entries)`: the set's strings in increasing order. */
  function SortedPlates(s: set<string>): (order: seq<string>)
    ensures StrictlySorted(order)
    ensures forall x :: x in order <==> x in s
    ensures |order| == |s|
    decreases |s|
  {
    if s == {} then []
    else
      LeastExists(s);
      LexAsymmetric();
      var m :| IsLeast(m, s);
      var rest := SortedPlates(s - {m});
      assert forall j :: 0 <= j < |rest| ==> rest[j] in s - {m};
      SortedCons(m, rest);
      [m] + rest
  }

  lemma SortedCons(m: string, rest: seq<string>)
    requires StrictlySorted(rest)
    requires forall j :: 0 <= j < |rest| ==> LexLess(m, rest[j])
    ensures StrictlySorted([m] + rest)
  {
    var order := [m] + rest;
    forall i, j | 0 <= i < j < |order|
      ensures LexLess(order[i], order[j])
    {
      if i > 0 {
        assert order[i] == rest[i - 1] && order[j] == rest[j - 1];
      }
    }
  }

  /** The file text `save_database` writes: every plate followed by a newline. */
  function Render(order: seq<string>): (r: string)
  {
    if order == [] then [] else order[0] + "\n" + Render(order[1..])
  }

  lemma {:induction false} RenderSnoc(order: seq<string>)
    requires order != []
    ensures Render(order) == Render(order[..|order| - 1]) + order[|order| - 1] + "\n"
  {
    if |order| > 1 {
      RenderSnoc(order[1..]);
      assert order[1..][..|order| - 2] == order[..|order| - 1][1..];
    }
  }

  /** A saved file is empty exactly when there are no plates, and otherwise ends with a newline. */
  lemma RenderEndsWithNewline(order: seq<string>)
    ensures Render(order) == [] <==> order == []
    ensures order != [] ==> Render(order)[|Render(order)| - 1] == '\n'
  {
    if order != [] {
      RenderSnoc(order);
    }
  }

  /** Python's universal-newline reading ends a line at '\n' or '\r'. */
  predicate IsBreak(c: char) {
    c == '\n' || c == '\r'
  }

  /** `s` holds no line break. */
  predicate NoBreak(s: string) {
    forall j :: 0 <= j < |s| ==> !IsBreak(s[j])
  }

  /** The pieces of `text` between line breaks (the last one possibly empty). */
  function Lines(text: string): (r: seq<string>)
    ensures |r| > 0
  {
    if text == [] then [[]]
    else
      var rest := Lines(text[1..]);
      if IsBreak(text[0]) then [[]] + rest else [[text[0]] + rest[0]] + rest[1..]
  }

  /** The stripped non-blank lines, collected into a set. */
  function ParseLines(lines: seq<string>): (r: set<string>)
    ensures [] !in r
    decreases |lines|
  {
    if lines == [] then {}
    else
      var s := Strip(lines[|lines| - 1]);
      ParseLines(lines[..|lines| - 1]) + (if s != [] then {s} else {})
  }

  /** The parsed set holds exactly the non-blank stripped lines. */
  lemma {:induction false} ParseLinesExactly(lines: seq<string>)
    ensures forall i :: 0 <= i < |lines| && Strip(lines[i]) != [] ==> Strip(lines[i]) in ParseLines(lines)
    ensures forall p :: p in ParseLines(lines) ==> exists i :: 0 <= i < |lines| && Strip(lines[i]) == p
    decreases |lines|
  {
    if lines != [] {
      var init := lines[..|lines| - 1];
      ParseLinesExactly(init);
      forall i | 0 <= i < |init|
        ensures init[i] == lines[i]
      {
      }
    }
  }

  /** The load-time parse: `{line.strip() for line in f if line.strip()}`. */
  function ParseDatabase(text: string): (r: set<string>)
    ensures [] !in r
  {
    ParseLines(Lines(text))
  }

  /** No line holds a break, and a text without breaks is a single line. */
  lemma {:induction false} LinesSplitAtBreaks(text: string)
    ensures forall i :: 0 <= i < |Lines(text)| ==> NoBreak(Lines(text)[i])
    ensures NoBreak(text) ==> Lines(text) == [text]
    decreases |text|
  {
    if text != [] {
      var rest := Lines(text[1..]);
      LinesSplitAtBreaks(text[1..]);
      if !IsBreak(text[0]) {
        var first := [text[0]] + rest[0];
        assert NoBreak(first) by {
          forall j | 0 <= j < |first|
            ensures !IsBreak(first[j])
          {
            if j > 0 {
              assert first[j] == rest[0][j - 1];
            }
          }
        }
        if NoBreak(text) {
          assert NoBreak(text[1..]) by {
            forall j | 0 <= j < |text[1..]|
              ensures !IsBreak(text[1..][j])
            {
              assert text[1..][j] == text[j + 1];
            }
          }
          assert [text[0]] + text[1..] == text;
        }
      }
    }
  }

  /** A one-line file holding a plate, with any surrounding blanks, loads as that plate alone. */
  lemma ParseSingleLine(text: string)
    requires NoBreak(text) && Strip(text) != []
    ensures ParseDatabase(text) == {Strip(text)}
  {
    LinesSplitAtBreaks(text);
    assert [text][..0] == [] && [text][0] == text;
    assert ParseDatabase(text) == ParseLines([text]);
    assert ParseLines([text]) == ParseLines([]) + {Strip(text)};
  }

  lemma {:induction false} LinesAfterLine(p: string, t: string)
    requires Canonical(p)
    ensures Lines(p + "\n" + t) == [p] + Lines(t)
    decreases |p|
  {
    if p == [] {
      assert p + "\n" + t == ['\n'] + t;
    } else {
      assert (p + "\n" + t)[1..] == p[1..] + "\n" + t;
      LinesAfterLine(p[1..], t);
      assert [p[0]] + p[1..] == p;
    }
  }

  /** Reading back a rendered file gives its lines, then the empty piece after the last newline. */
  lemma {:induction false} LinesOfRender(order: seq<string>)
    requires forall i :: 0 <= i < |order| ==> Canonical(order[i])
    ensures Lines(Render(order)) == order + [[]]
  {
    if order != [] {
      LinesOfRender(order[1..]);
      LinesAfterLine(order[0], Render(order[1..]));
      assert order == [order[0]] + order[1..];
    }
  }

  /** Lines that are already plates are read back as themselves. */
  lemma {:induction false} ParsePlates(order: seq<string>)
    requires forall i :: 0 <= i < |order| ==> Canonical(order[i]) && order[i] != []
    ensures ParseLines(order) == set p | p in order
    decreases |order|
  {
    if order != [] {
      var init := order[..|order| - 1];
      var last := order[|order| - 1];
      ParsePlates(init);
      StripFixesCanonical(last);
      assert order == init + [last];
      assert (set p | p in order) == (set p | p in init) + {last};
    }
  }

  /** Parsing a rendered list of non-empty canonical plates gives back exactly those plates. */
  lemma ParseRender(order: seq<string>)
    requires forall i :: 0 <= i < |order| ==> Canonical(order[i]) && order[i] != []
    ensures ParseDatabase(Render(order)) == set p | p in order
  {
    LinesOfRender(order);
    var lines := order + [[]];
    assert lines[..|lines| - 1] == order;
    assert Strip([]) == [];
    ParsePlates(order);
  }

  /** Non-empty canonical plates, as `add_plate_entry` stores them. */
  predicate AllPlates(s: set<string>) {
    forall p :: p in s ==> Canonical(p) && p != []
  }

  /** The round trip of the store: saving, then loading, gives back the same set. */
  lemma SaveLoadRoundTrip(s: set<string>)
    requires AllPlates(s)
    ensures ParseDatabase(Render(SortedPlates(s))) == s
  {
    var order := SortedPlates(s);
    ParseRender(order);
  }

  /** The global `database_entries` and the file it is persisted in. */
  class WatchList {
    var entries: set<string>
    var file: string

    /** Module load: a missing file is created empty, then every non-blank stripped line is read. */
    constructor Load(stored: Option<string>)
      ensures file == stored.GetOr("")
      ensures entries == ParseDatabase(file)
    {
      var text := stored.GetOr("");
      file := text;
      entries := ParseDatabase(text);
    }

    /** `save_database`: write each entry, in sorted order, on a line of its own. */
    method SaveDatabase()
      modifies this`file
      ensures file == Render(SortedPlates(entries))
    {
      var order := SortedPlates(entries);
      var text := "";
      for i := 0 to |order|
        invariant text == Render(order[..i])
      {
        RenderSnoc(order[..i + 1]);
        assert order[..i + 1][..i] == order[..i];
        text := text + order[i] + "\n";
      }
      assert order[..|order|] == order;
      file := text;
    }

    /**
     * `add_plate_entry`: normalise the stripped input and insert it when it
     * is non-empty and not yet present, then save.
     */
    method AddPlateEntry(input: string) returns (added: bool)
      modifies this
      ensures added == (Normalize(Strip(input)) != [] && Normalize(Strip(input)) !in old(entries))
      ensures entries == if added then old(entries) + {Normalize(Strip(input))} else old(entries)
      ensures file == if added then Render(SortedPlates(entries)) else old(file)
      ensures AllPlates(old(entries)) ==> AllPlates(entries)
      ensures added && AllPlates(old(entries)) ==> ParseDatabase(file) == entries
    {
      ghost var wasPlates := AllPlates(entries);
      var plate := Strip(input);
      plate := Normalize(plate);
      added := plate != [] && plate !in entries;
      if added {
        entries := entries + {plate};
        assert wasPlates ==> AllPlates(entries);
        SaveDatabase();
        if wasPlates {
          SaveLoadRoundTrip(entries);
        }
      }
    }

    /**
     * `remove_selected_plate`: `selected` is the text of the selected list
     * row, if any; it is deleted when it is an entry, then the set is saved.
     */
    method RemoveSelectedPlate(selected: Option<string>) returns (removed: bool)
      modifies this
      ensures removed == (selected.Some? && selected.value in old(entries))
      ensures entries == if removed then old(entries) - {selected.value} else old(entries)
      ensures file == if removed then Render(SortedPlates(entries)) else old(file)
      ensures AllPlates(old(entries)) ==> AllPlates(entries)
      ensures removed && AllPlates(old(entries)) ==> ParseDatabase(file) == entries
    {
      ghost var wasPlates := AllPlates(entries);
      removed := false;
      if selected.Some? {
        var plate := selected.value;
        if plate in entries {
          entries := entries - {plate};
          removed := true;
          SaveDatabase();
          if wasPlates {
            SaveLoadRoundTrip(entries);
          }
        }
      }
    }
  }
}
