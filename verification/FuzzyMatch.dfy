/**
 * `fuzzy_match` (fuzzy_match.py): scan the watch-list for the entry nearest
 * to the recognised text and accept it only within the mismatch tolerance.
 * Python's set iteration order is modelled by the order of the sequence `es`.
 */
module FuzzyMatch {
  import opened Wrappers
  import opened PlateText
  import opened Levenshtein

  /** The best entry so far and its distance (`best_match`, `best_dist`). */
  datatype Candidate = Candidate(plate: string, dist: nat)

  /** The text the matcher compares: `recognized_text.strip().upper()`. */
  function Key(text: string): (q: string)
    ensures forall i :: 0 <= i < |q| ==> !('a' <= q[i] <= 'z')
    ensures Canonical(text) ==> q == text
  {
    var q := Upper(Strip(text));
    assert Canonical(text) ==> q == text by {
      if Canonical(text) {
        KeyOfCanonical(text);
      }
    }
    q
  }

  /**
   * The best candidate after scanning `es` in order with the strict `<` of
   * the source; `None` while `best_dist` is still infinity.
   */
  function Best(q: string, es: seq<string>): (r: Option<Candidate>)
    ensures r.Some? <==> es != []
    decreases |es|
  {
    if es == [] then None
    else
      var e := es[|es| - 1];
      var d := EditDistance(q, e);
      match Best(q, es[..|es| - 1])
      case None => Some(Candidate(e, d))
      case Some(c) => if d < c.dist then Some(Candidate(e, d)) else Some(c)
  }

  /** What `fuzzy_match(text, es, tolerance)` returns. */
  function Match(text: string, es: seq<string>, tolerance: int): (r: Option<string>)
    ensures r.Some? ==> Key(text) != [] && r.value in es && EditDistance(Key(text), r.value) <= tolerance
    ensures es == [] || tolerance < 0 ==> r == None
  {
    var q := Key(text);
    if q == [] then None
    else
      match Best(q, es)
      case None => None
      case Some(c) =>
        assert c.plate in es && c.dist == EditDistance(q, c.plate) by {
          var k := BestIsFirstMinimum(q, es);
        }
        if c.dist <= tolerance then Some(c.plate) else None
  }

  /** The scan of the source, one `levenshtein_distance` call per entry. */
  method FuzzyMatch(text: string, es: seq<string>, tolerance: int) returns (r: Option<string>)
    ensures r == Match(text, es, tolerance)
  {
    var q := Upper(Strip(text));
    if q == [] {
      return None;
    }
    var best: Option<Candidate> := None;
    for i := 0 to |es|
      invariant best == Best(q, es[..i])
    {
      var d := LevenshteinDistance(q, es[i]);
      assert es[..i + 1][..i] == es[..i];
      if best.None? || d < best.value.dist {
        best := Some(Candidate(es[i], d));
      }
    }
    assert es[..|es|] == es;
    if best.Some? && best.value.dist <= tolerance {
      r := Some(best.value.plate);
    } else {
      r := None;
    }
  }

  /** One more entry scanned: it replaces the best so far only when strictly nearer. */
  lemma BestStep(q: string, es: seq<string>)
    requires es != [] && es[..|es| - 1] != []
    ensures var c := Best(q, es[..|es| - 1]).value;
            var d := EditDistance(q, es[|es| - 1]);
            Best(q, es) == if d < c.dist then Some(Candidate(es[|es| - 1], d)) else Some(c)
  {
  }

  /**
   * The scan finds the first entry, in iteration order, whose distance is
   * minimal: every entry is at least as far, every earlier one strictly farther.
   */
  lemma {:induction false} BestIsFirstMinimum(q: string, es: seq<string>) returns (k: nat)
    requires es != []
    ensures Best(q, es).Some?
    ensures k < |es| && es[k] == Best(q, es).value.plate
    ensures Best(q, es).value.dist == EditDistance(q, es[k])
    ensures forall j :: 0 <= j < |es| ==> Best(q, es).value.dist <= EditDistance(q, es[j])
    ensures forall j :: 0 <= j < k ==> EditDistance(q, es[j]) > Best(q, es).value.dist
    decreases |es|
  {
    var n := |es|;
    var init, last := es[..n - 1], es[n - 1];
    var d := EditDistance(q, last);
    if init == [] {
      k := 0;
    } else {
      var k' := BestIsFirstMinimum(q, init);
      var c := Best(q, init).value;
      BestStep(q, es);
      var b := Best(q, es).value;
      forall j | 0 <= j < n
        ensures b.dist <= EditDistance(q, es[j])
      {
        if j < n - 1 {
          assert es[j] == init[j];
        }
      }
      if d < c.dist {
        k := n - 1;
      } else {
        k := k';
        assert es[k] == init[k];
      }
      forall j | 0 <= j < k
        ensures EditDistance(q, es[j]) > b.dist
      {
        assert es[j] == init[j];
      }
    }
  }

  /** A scan over an empty watch-list finds nothing. */
  lemma BestEmpty(q: string)
    ensures Best(q, []) == None
  {
  }

  /**
   * A returned plate is a watch-list entry within the tolerance, no farther
   * than any other entry, and the first such in iteration order.
   */
  lemma MatchSound(text: string, es: seq<string>, tolerance: int) returns (k: nat)
    requires Match(text, es, tolerance).Some?
    ensures Key(text) != []
    ensures k < |es| && es[k] == Match(text, es, tolerance).value
    ensures EditDistance(Key(text), es[k]) <= tolerance
    ensures forall j :: 0 <= j < |es| ==> EditDistance(Key(text), es[k]) <= EditDistance(Key(text), es[j])
    ensures forall j :: 0 <= j < k ==> EditDistance(Key(text), es[j]) > EditDistance(Key(text), es[k])
  {
    k := BestIsFirstMinimum(Key(text), es);
  }

  /**
   * `None` exactly when the text is blank after strip/upper, or when no
   * entry is within the tolerance (which includes an empty watch-list).
   */
  lemma MatchNone(text: string, es: seq<string>, tolerance: int)
    ensures Match(text, es, tolerance) == None
        <==> Key(text) == [] || forall j :: 0 <= j < |es| ==> EditDistance(Key(text), es[j]) > tolerance
  {
    if Key(text) != [] && es != [] {
      var k := BestIsFirstMinimum(Key(text), es);
    }
  }

  /** A text that reads exactly as a watch-list entry is matched at distance 0, given a tolerance of at least 0. */
  lemma MatchExact(text: string, es: seq<string>, tolerance: int, k: nat)
    requires k < |es| && Key(text) == es[k] && Key(text) != [] && tolerance >= 0
    ensures Match(text, es, tolerance).Some?
    ensures EditDistance(Key(text), Match(text, es, tolerance).value) == 0
  {
    EditDistanceMetric(es[k], es[k]);
    var i := BestIsFirstMinimum(Key(text), es);
  }

  /** `match("ABC123", {"ABC124"}, 1)` gives `"ABC124"`; with tolerance 0 it gives nothing. */
  lemma MatchOneSubstitution()
    ensures Match("ABC123", ["ABC124"], 1) == Some("ABC124")
    ensures Match("ABC123", ["ABC124"], 0) == None
  {
    assert Key("ABC123") == "ABC123";
    assert Upper("ABC123") == "ABC123" && Upper("ABC124") == "ABC124";
    assert "ABC123" == "ABC12" + ['3'] && "ABC124" == "ABC12" + ['4'];
    SubstituteLast("ABC12", '3', '4');
    assert EditDistance("ABC123", "ABC124") == 1;
  }
}
