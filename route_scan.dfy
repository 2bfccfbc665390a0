/**
 * The route-declaration pattern of the scripts, matched by hand:
 *
 *   app.(get|post|put|delete|patch)\s*\(\s*["']([^"']+)["']    (spaced)
 *   app.(get|post|put|delete|patch)\(\s*["']([^"']+)["']       (unspaced)
 *
 * The greedy runs never need backtracking: each `\s*` or `[^"']+` run is
 * followed by a character outside its class; and no verb is a prefix of
 * another, so backtracking into the alternation never yields a second verb.
 * `MatchAt` is therefore a function of the text and the start. A match is
 * reported by positions, as a regular-expression engine does: the
 * alternative taken and where the captured path starts and stops.
 * `Exec` is `regex.exec` with the `g` flag (leftmost match at or after
 * `lastIndex`); `AllMatches` is the sequence the scripts' `while` loops see.
 */
module RouteScan {

  import opened Wrappers
  import opened Text

  /** The alternatives of `(get|post|put|delete|patch)`, in the order they are tried. */
  const Verbs: seq<string> := ["get", "post", "put", "delete", "patch"]

  predicate IsQuote(c: char) {
    c == '"' || c == '\''
  }

  /** `s[lo..hi]` is a run of blanks. */
  predicate SpaceRun(s: string, lo: nat, hi: nat) {
    lo <= hi <= |s| && forall k {:trigger IsSpace(s[k])} :: lo <= k < hi ==> IsSpace(s[k])
  }

  /** `s[lo..hi]` holds no quote. */
  predicate QuoteFreeRun(s: string, lo: nat, hi: nat) {
    lo <= hi <= |s| && forall k {:trigger IsQuote(s[k])} :: lo <= k < hi ==> !IsQuote(s[k])
  }

  /** `lit` is written in `s` at position `i`. */
  predicate LiteralAt(s: string, i: nat, lit: string) {
    i + |lit| <= |s| && Spelled(s, i, lit)
  }

  /** The characters of `s` from `i` on spell `lit`, one by one. */
  predicate Spelled(s: string, i: nat, lit: string)
    decreases |lit|
  {
    lit == [] || (i < |s| && s[i] == lit[0] && Spelled(s, i + 1, lit[1..]))
  }

  /**
   * One match: the alternative of the verb group, the position of `(`, and
   * the path group `s[pathStart..pathEnd]`; the match ends just after the
   * closing quote.
   */
  datatype Match = Match(alt: nat, paren: nat, pathStart: nat, pathEnd: nat) {
    function End(): nat {
      pathEnd + 1
    }
  }

  /** Where the greedy `\s*` starting at `i` stops. */
  function SpaceEnd(s: string, i: nat): (e: nat)
    requires i <= |s|
    ensures i <= e <= |s|
    decreases |s| - i
  {
    if i < |s| && IsSpace(s[i]) then SpaceEnd(s, i + 1) else i
  }

  /** Where the greedy `[^"']*` starting at `i` stops. */
  function NonQuoteEnd(s: string, i: nat): (e: nat)
    requires i <= |s|
    ensures i <= e <= |s|
    decreases |s| - i
  {
    if i < |s| && !IsQuote(s[i]) then NonQuoteEnd(s, i + 1) else i
  }

  /**
   * The alternation `(get|post|put|delete|patch)` at position `j`, from
   * alternative `k` on: the first alternative written there.
   */
  function VerbAt(s: string, j: nat, k: nat): (r: Option<nat>)
    ensures r.Some? ==> k <= r.value < |Verbs| && LiteralAt(s, j, Verbs[r.value])
    decreases |Verbs| - k
  {
    if k >= |Verbs| then None
    else if LiteralAt(s, j, Verbs[k]) then Some(k)
    else VerbAt(s, j, k + 1)
  }

  /** The position of `(` after a verb ending at `a`: past the blanks in the spaced pattern. */
  function ParenPos(s: string, a: nat, spaced: bool): (b: nat)
    requires a <= |s|
    ensures a <= b <= |s| && (!spaced ==> b == a)
  {
    if spaced then SpaceEnd(s, a) else a
  }

  /** `\(\s*["']([^"']+)["']` at position `b`, after alternative `alt`. */
  function ParenAt(s: string, b: nat, alt: nat): (r: Option<Match>)
    requires b <= |s|
    ensures r.Some? ==>
      && b < |s| && s[b] == '(' && r.value.alt == alt && r.value.paren == b
      && var c := SpaceEnd(s, b + 1);
         && c < |s| && IsQuote(s[c]) && r.value.pathStart == c + 1 < r.value.pathEnd < |s|
         && r.value.pathEnd == NonQuoteEnd(s, c + 1)
  {
    if b < |s| && s[b] == '(' then
      var c := SpaceEnd(s, b + 1);
      if c < |s| && IsQuote(s[c]) then
        var d := NonQuoteEnd(s, c + 1);
        if c + 1 < d < |s| then Some(Match(alt, b, c + 1, d)) else None
      else None
    else None
  }

  /** The pattern tried at position `i`; `spaced` says whether `\s*` may precede `(`. */
  function MatchAt(s: string, i: nat, spaced: bool): (r: Option<Match>)
    requires i <= |s|
    ensures r.Some? ==>
      && LiteralAt(s, i, "app.") && r.value.alt < |Verbs| && LiteralAt(s, i + 4, Verbs[r.value.alt])
      && r == ParenAt(s, ParenPos(s, i + 4 + |Verbs[r.value.alt]|, spaced), r.value.alt)
  {
    if LiteralAt(s, i, "app.") then
      match VerbAt(s, i + 4, 0)
      case None => None
      case Some(k) => ParenAt(s, ParenPos(s, i + 4 + |Verbs[k]|, spaced), k)
    else None
  }

  /**
   * What it means for the pattern to match at `i` with result `m`, stated
   * declaratively: `app.`, the verb of alternative `m.alt`, blanks (none in
   * the unspaced pattern), `(`, blanks, an opening quote, a non-empty
   * quote-free path, and a closing quote.
   */
  predicate IsMatch(s: string, i: nat, spaced: bool, m: Match) {
    && m.alt < |Verbs| && LiteralAt(s, i, "app.") && LiteralAt(s, i + 4, Verbs[m.alt])
    && m.paren + 1 < m.pathStart < m.pathEnd < |s|
    && (!spaced ==> m.paren == i + 4 + |Verbs[m.alt]|)
    && SpaceRun(s, i + 4 + |Verbs[m.alt]|, m.paren) && s[m.paren] == '('
    && SpaceRun(s, m.paren + 1, m.pathStart - 1) && IsQuote(s[m.pathStart - 1])
    && QuoteFreeRun(s, m.pathStart, m.pathEnd) && IsQuote(s[m.pathEnd])
  }

  lemma {:induction false} SpaceEndSpans(s: string, i: nat)
    requires i <= |s|
    ensures SpaceRun(s, i, SpaceEnd(s, i))
    decreases |s| - i
  {
    if i < |s| && IsSpace(s[i]) {
      SpaceEndSpans(s, i + 1);
    }
  }

  lemma {:induction false} NonQuoteEndSpans(s: string, i: nat)
    requires i <= |s|
    ensures QuoteFreeRun(s, i, NonQuoteEnd(s, i))
    ensures NonQuoteEnd(s, i) < |s| ==> IsQuote(s[NonQuoteEnd(s, i)])
    decreases |s| - i
  {
    if i < |s| && !IsQuote(s[i]) {
      NonQuoteEndSpans(s, i + 1);
    }
  }

  /** The pieces of a match, as found by the stages of the pattern. */
  lemma MatchAtShape(s: string, i: nat, spaced: bool, m: Match) returns (a: nat)
    requires i <= |s| && MatchAt(s, i, spaced) == Some(m)
    ensures && LiteralAt(s, i, "app.") && m.alt < |Verbs| && LiteralAt(s, i + 4, Verbs[m.alt])
            && a == i + 4 + |Verbs[m.alt]| && m.paren == ParenPos(s, a, spaced) && m.paren < m.pathStart - 1
            && m.pathStart < m.pathEnd < |s| && s[m.paren] == '(' && m.pathStart - 1 == SpaceEnd(s, m.paren + 1)
            && IsQuote(s[m.pathStart - 1]) && m.pathEnd == NonQuoteEnd(s, m.pathStart)
  {
    a := i + 4 + |Verbs[m.alt]|;
  }

  /** The runs the stages skip are blanks, blanks, and quote-free text. */
  lemma ShapeSpans(s: string, a: nat, b: nat, p: nat, d: nat, spaced: bool)
    requires a <= |s| && b == ParenPos(s, a, spaced) && b < p - 1 && p <= d < |s|
    requires p - 1 == SpaceEnd(s, b + 1) && d == NonQuoteEnd(s, p)
    ensures SpaceRun(s, a, b) && SpaceRun(s, b + 1, p - 1) && QuoteFreeRun(s, p, d) && IsQuote(s[d])
  {
    SpaceEndSpans(s, a);
    SpaceEndSpans(s, b + 1);
    NonQuoteEndSpans(s, p);
  }

  /** Soundness: whatever the pattern matches is a route declaration. */
  lemma MatchAtSound(s: string, i: nat, spaced: bool, m: Match)
    requires i <= |s| && MatchAt(s, i, spaced) == Some(m)
    ensures IsMatch(s, i, spaced, m)
  {
    var a := MatchAtShape(s, i, spaced, m);
    ShapeSpans(s, a, m.paren, m.pathStart, m.pathEnd, spaced);
  }

  /** The greedy `\s*` stops at the first non-blank. */
  lemma {:induction false} SpaceEndStops(s: string, i: nat, e: nat)
    requires e < |s| && SpaceRun(s, i, e) && !IsSpace(s[e])
    ensures SpaceEnd(s, i) == e
    decreases e - i
  {
    if i < e {
      SpaceEndStops(s, i + 1, e);
    }
  }

  /** The greedy `[^"']+` stops at the first quote. */
  lemma {:induction false} NonQuoteEndStops(s: string, i: nat, e: nat)
    requires e < |s| && QuoteFreeRun(s, i, e) && IsQuote(s[e])
    ensures NonQuoteEnd(s, i) == e
    decreases e - i
  {
    if i < e {
      NonQuoteEndStops(s, i + 1, e);
    }
  }

  /** No verb is a prefix of another, so at most one is written at any position. */
  lemma VerbsExclusive(s: string, j: nat, k: nat, k': nat)
    requires k < |Verbs| && k' < |Verbs| && LiteralAt(s, j, Verbs[k]) && LiteralAt(s, j, Verbs[k'])
    ensures k == k'
  {
    assert s[j + 0] == Verbs[k][0] == Verbs[k'][0];
    assert s[j + 1] == Verbs[k][1] == Verbs[k'][1];
  }

  /** The alternation picks the verb that is written. */
  lemma {:induction false} VerbAtWritten(s: string, j: nat, k: nat, alt: nat)
    requires k <= alt < |Verbs| && LiteralAt(s, j, Verbs[alt])
    ensures VerbAt(s, j, k) == Some(alt)
    decreases |Verbs| - k
  {
    if LiteralAt(s, j, Verbs[k]) {
      VerbsExclusive(s, j, alt, k);
    } else {
      VerbAtWritten(s, j, k + 1, alt);
    }
  }

  /** The stages after the verb find the pieces a match describes. */
  lemma ParenAtComplete(s: string, a: nat, spaced: bool, m: Match)
    requires m.paren + 1 < m.pathStart < m.pathEnd < |s| && (!spaced ==> m.paren == a)
    requires SpaceRun(s, a, m.paren) && s[m.paren] == '('
    requires SpaceRun(s, m.paren + 1, m.pathStart - 1) && IsQuote(s[m.pathStart - 1])
    requires QuoteFreeRun(s, m.pathStart, m.pathEnd) && IsQuote(s[m.pathEnd])
    ensures ParenAt(s, ParenPos(s, a, spaced), m.alt) == Some(m)
  {
    if spaced {
      SpaceEndStops(s, a, m.paren);
    }
    SpaceEndStops(s, m.paren + 1, m.pathStart - 1);
    NonQuoteEndStops(s, m.pathStart, m.pathEnd);
  }

  /** Completeness: every route declaration is matched, with its verb and path captured. */
  lemma MatchAtComplete(s: string, i: nat, spaced: bool, m: Match)
    requires i <= |s| && IsMatch(s, i, spaced, m)
    ensures MatchAt(s, i, spaced) == Some(m)
  {
    VerbAtWritten(s, i + 4, 0, m.alt);
    ParenAtComplete(s, i + 4 + |Verbs[m.alt]|, spaced, m);
    MatchAtOf(s, i, spaced, m.alt, m);
  }

  /** Once `app.` and a verb are read, the match is decided by the stages after the verb. */
  lemma MatchAtOf(s: string, i: nat, spaced: bool, k: nat, m: Match)
    requires i <= |s| && LiteralAt(s, i, "app.") && VerbAt(s, i + 4, 0) == Some(k)
    requires k < |Verbs| && i + 4 + |Verbs[k]| <= |s|
    requires ParenAt(s, ParenPos(s, i + 4 + |Verbs[k]|, spaced), k) == Some(m)
    ensures MatchAt(s, i, spaced) == Some(m)
  {
  }

  /** The verb and path a match captures. */
  function VerbOf(m: Match): string
    requires m.alt < |Verbs|
  {
    Verbs[m.alt]
  }

  function PathOf(s: string, m: Match): string
    requires m.pathStart <= m.pathEnd < |s|
  {
    s[m.pathStart..m.pathEnd]
  }

  /** Every match lies inside the text and took one of the alternatives. */
  predicate InText(s: string, m: Match) {
    m.alt < |Verbs| && m.pathStart <= m.pathEnd < |s|
  }

  /** A match ends inside the text, after its start. */
  lemma MatchAtInText(s: string, i: nat, spaced: bool)
    requires i <= |s| && MatchAt(s, i, spaced).Some?
    ensures InText(s, MatchAt(s, i, spaced).value) && i < MatchAt(s, i, spaced).value.End() <= |s|
  {
    var _ := MatchAtShape(s, i, spaced, MatchAt(s, i, spaced).value);
  }

  /**
   * The outcome of trying the pattern at each start position `0 .. n - 1`.
   * A regular-expression engine tries the positions one by one; the table
   * lets the scan be reasoned about apart from the pattern itself.
   */
  function AttemptsUpTo(s: string, spaced: bool, n: nat): (t: seq<Option<Match>>)
    requires n <= |s| + 1
    ensures |t| == n
  {
    if n == 0 then [] else AttemptsUpTo(s, spaced, n - 1) + [MatchAt(s, n - 1, spaced)]
  }

  /** The outcome of trying the pattern at every start position of `s`, the end included. */
  function Attempts(s: string, spaced: bool): (t: seq<Option<Match>>)
    ensures |t| == |s| + 1
  {
    AttemptsUpTo(s, spaced, |s| + 1)
  }

  lemma {:induction false} AttemptsUpToAt(s: string, spaced: bool, n: nat, i: nat)
    requires i < n <= |s| + 1
    ensures AttemptsUpTo(s, spaced, n)[i] == MatchAt(s, i, spaced)
    decreases n
  {
    if i < n - 1 {
      AttemptsUpToAt(s, spaced, n - 1, i);
    }
  }

  /** Entry `i` of the table is the attempt at `i`. */
  lemma AttemptAt(s: string, spaced: bool, i: nat)
    requires i <= |s|
    ensures Attempts(s, spaced)[i] == MatchAt(s, i, spaced)
  {
    AttemptsUpToAt(s, spaced, |s| + 1, i);
  }

  /** A match in the declarative sense is the table's entry at its start. */
  lemma AttemptComplete(s: string, i: nat, spaced: bool, m: Match)
    requires i <= |s| && IsMatch(s, i, spaced, m)
    ensures Attempts(s, spaced)[i] == Some(m)
  {
    MatchAtComplete(s, i, spaced, m);
    AttemptAt(s, spaced, i);
  }

  /** Every match in a table ends after its start and inside the table. */
  predicate Advances(t: seq<Option<Match>>) {
    forall p :: 0 <= p < |t| && t[p].Some? ==> p < t[p].value.End() < |t|
  }

  lemma AttemptsAdvance(s: string, spaced: bool)
    ensures Advances(Attempts(s, spaced))
  {
    forall p | 0 <= p < |s| + 1 && Attempts(s, spaced)[p].Some?
      ensures p < Attempts(s, spaced)[p].value.End() < |s| + 1
    {
      AttemptAt(s, spaced, p);
      MatchAtInText(s, p, spaced);
    }
  }

  /**
   * `regex.exec` with the `g` flag and `lastIndex == from`, over a table of
   * attempts: the match at the leftmost start position at or after `from`.
   */
  function ExecIn(t: seq<Option<Match>>, from: nat): (r: Option<(nat, Match)>)
    requires from < |t|
    ensures r.Some? ==> from <= r.value.0 < |t| && t[r.value.0] == Some(r.value.1)
    decreases |t| - from
  {
    match t[from]
    case Some(m) => Some((from, m))
    case None => if from == |t| - 1 then None else ExecIn(t, from + 1)
  }

  /** `ExecIn` finds the leftmost match: none starts between `from` and the one it returns. */
  lemma {:induction false} ExecLeftmost(t: seq<Option<Match>>, from: nat, j: nat)
    requires from <= j < |t|
    requires ExecIn(t, from).None? || j < ExecIn(t, from).value.0
    ensures t[j].None?
    decreases j - from
  {
    if j > from {
      ExecLeftmost(t, from + 1, j);
    }
  }

  /**
   * Every match the `while ((match = regex.exec(s)) !== null)` loop sees,
   * starting at `from`: after a match, `lastIndex` moves to its end.
   */
  function ScanIn(t: seq<Option<Match>>, from: nat): seq<Match>
    requires Advances(t) && from < |t|
    decreases |t| - from
  {
    match ExecIn(t, from)
    case None => []
    case Some((p, m)) => [m] + ScanIn(t, m.End())
  }

  /**
   * `regex.exec(s)` with `lastIndex == from`: a match it reports lies in the
   * text, at or after `lastIndex`, and ends after it (ExecSound: it is the leftmost).
   */
  function Exec(s: string, from: nat, spaced: bool): (r: Option<(nat, Match)>)
    requires from <= |s|
    ensures r.Some? ==> from <= r.value.0 < r.value.1.End() <= |s| && InText(s, r.value.1)
  {
    ExecInAttempts(s, from, spaced);
    ExecIn(Attempts(s, spaced), from)
  }

  /** A match `ExecIn` finds among the attempts is the pattern's match at that position. */
  lemma ExecInAttempts(s: string, from: nat, spaced: bool)
    requires from <= |s|
    ensures var r := ExecIn(Attempts(s, spaced), from);
      r.Some? ==> from <= r.value.0 < r.value.1.End() <= |s| && InText(s, r.value.1)
  {
    var r := ExecIn(Attempts(s, spaced), from);
    if r.Some? {
      AttemptAt(s, spaced, r.value.0);
      MatchAtInText(s, r.value.0, spaced);
    }
  }

  /** Every match of the `regex.exec` loop over `s` from `from`. */
  function AllMatches(s: string, from: nat, spaced: bool): seq<Match>
    requires from <= |s|
  {
    AttemptsAdvance(s, spaced);
    ScanIn(Attempts(s, spaced), from)
  }

  /** `Exec` reports the leftmost match at or after `from`, and it is a match. */
  lemma ExecSound(s: string, from: nat, spaced: bool)
    requires from <= |s|
    ensures match Exec(s, from, spaced)
      case None => forall j :: from <= j <= |s| ==> MatchAt(s, j, spaced).None?
      case Some((p, m)) =>
        && from <= p <= |s| && MatchAt(s, p, spaced) == Some(m)
        && forall j :: from <= j < p ==> MatchAt(s, j, spaced).None?
  {
    var t := Attempts(s, spaced);
    forall j | from <= j <= |s| && (ExecIn(t, from).None? || j < ExecIn(t, from).value.0)
      ensures MatchAt(s, j, spaced).None?
    {
      ExecLeftmost(t, from, j);
      AttemptAt(s, spaced, j);
    }
    if ExecIn(t, from).Some? {
      AttemptAt(s, spaced, ExecIn(t, from).value.0);
    }
  }

  /**
   * One turn of the `while ((match = regex.exec(s)) !== null)` loop: no match
   * ends the scan; a match is the first one the scan reports, it lies in the
   * text, and `lastIndex` moves strictly forward to its end.
   */
  lemma ExecStep(s: string, from: nat, spaced: bool)
    requires from <= |s|
    ensures match Exec(s, from, spaced)
      case None => AllMatches(s, from, spaced) == []
      case Some((p, m)) =>
        && from < m.End() <= |s| && InText(s, m)
        && AllMatches(s, from, spaced) == [m] + AllMatches(s, m.End(), spaced)
  {
    AttemptsAdvance(s, spaced);
    ExecSound(s, from, spaced);
    if Exec(s, from, spaced).Some? {
      var p := Exec(s, from, spaced).value.0;
      MatchAtInText(s, p, spaced);
    }
  }

  /** The captures of the scan from `from`: that of the match `exec` finds, then the rest. */
  lemma CapturesStep(s: string, from: nat, spaced: bool, m: Match)
    requires from <= |s| && Exec(s, from, spaced).Some? && Exec(s, from, spaced).value.1 == m
    ensures m.End() <= |s|
    ensures Captures(s, AllMatches(s, from, spaced)) == [Capture(s, m)] + Captures(s, AllMatches(s, m.End(), spaced))
  {
    ExecStep(s, from, spaced);
    var ms := AllMatches(s, from, spaced);
    assert ms[0] == m && ms[1..] == AllMatches(s, m.End(), spaced);
  }

  /** Every capture of the scan has one of the five verbs. */
  lemma {:induction false} CapturedVerbs(s: string, from: nat, spaced: bool)
    requires from <= |s|
    ensures forall c :: c in Captures(s, AllMatches(s, from, spaced)) ==> c.0 in Verbs
    decreases |s| - from
  {
    ExecStep(s, from, spaced);
    match Exec(s, from, spaced)
    case None =>
    case Some((p, m)) =>
      CapturedVerbs(s, m.End(), spaced);
      var ms := AllMatches(s, from, spaced);
      assert ms[0] == m && ms[1..] == AllMatches(s, m.End(), spaced);
      assert Captures(s, ms) == [Capture(s, m)] + Captures(s, AllMatches(s, m.End(), spaced));
  }

  /** A match where the scan stands is reported first, and the scan resumes at its end. */
  lemma ScanAt(t: seq<Option<Match>>, k: nat, m: Match)
    requires Advances(t) && k < |t| && t[k] == Some(m)
    ensures ScanIn(t, k) == [m] + ScanIn(t, m.End())
  {
  }

  /** A position where no match starts is skipped. */
  lemma SkipNone(t: seq<Option<Match>>, from: nat)
    requires Advances(t) && from + 1 < |t| && t[from].None?
    ensures ScanIn(t, from) == ScanIn(t, from + 1)
  {
  }

  /** A match followed by three positions where none starts: the scan reports it and resumes after them. */
  lemma ScanStep(t: seq<Option<Match>>, k: nat, m: Match)
    requires Advances(t) && k < |t| && t[k] == Some(m) && m.End() + 3 < |t|
    requires t[m.End()].None? && t[m.End() + 1].None? && t[m.End() + 2].None?
    ensures ScanIn(t, k) == [m] + ScanIn(t, m.End() + 3)
  {
    ScanAt(t, k, m);
    SkipNone(t, m.End());
    SkipNone(t, m.End() + 1);
    SkipNone(t, m.End() + 2);
  }

  /** The scan of the last position of a table whose last entry is empty finds nothing. */
  lemma ScanLast(t: seq<Option<Match>>)
    requires Advances(t) && |t| > 0 && t[|t| - 1].None?
    ensures ScanIn(t, |t| - 1) == []
  {
  }

  /** The (verb, path) pair a match captures; a match that does not lie in `s` captures nothing. */
  function Capture(s: string, m: Match): (string, string) {
    if InText(s, m) then (VerbOf(m), PathOf(s, m)) else ("", "")
  }

  /** The captured (verb, path) pairs of a sequence of matches of `s`. */
  function Captures(s: string, ms: seq<Match>): seq<(string, string)> {
    if ms == [] then [] else [Capture(s, ms[0])] + Captures(s, ms[1..])
  }

  /** A route declaration as it is written in a routes file. */
  datatype Declaration = Declaration(verb: string, path: string, open: char, close: char)

  predicate QuoteFree(s: string) {
    forall i :: 0 <= i < |s| ==> !IsQuote(s[i])
  }

  predicate WellFormed(d: Declaration) {
    d.verb in Verbs && d.path != [] && QuoteFree(d.path) && IsQuote(d.open) && IsQuote(d.close)
  }

  /** A declaration written as `app.verb('path'`, with no blanks. */
  function Render(d: Declaration): string {
    "app." + d.verb + "(" + [d.open] + d.path + [d.close]
  }

  /** Declarations written one per line, each closed by `);`. */
  function RenderAll(ds: seq<Declaration>): string {
    if ds == [] then [] else Render(ds[0]) + ");\n" + RenderAll(ds[1..])
  }

  function Written(ds: seq<Declaration>): seq<(string, string)> {
    if ds == [] then [] else [(ds[0].verb, ds[0].path)] + Written(ds[1..])
  }

  /** No match starts at a character other than `a`. */
  lemma NoAttemptOff(s: string, spaced: bool, i: nat)
    requires i < |s| && s[i] != 'a'
    ensures Attempts(s, spaced)[i].None?
  {
    AttemptAt(s, spaced, i);
    assert !Spelled(s, i, "app.");
  }

  /** No match starts at the end of the text. */
  lemma NoAttemptAtEnd(s: string, spaced: bool)
    ensures Attempts(s, spaced)[|s|].None?
  {
    AttemptAt(s, spaced, |s|);
  }

  /** The characters of a rendered declaration followed by `);` and a line break. */
  lemma RenderedPieces(s: string, k: nat, d: Declaration, rest: string, n: nat)
    requires k <= |s| && s[k..] == Render(d) + ");\n" + rest && n == k + |Render(d)|
    ensures && n + 3 <= |s| && s[k..n] == Render(d) && s[n] == ')' && s[n + 1] == ';' && s[n + 2] == '\n'
            && s[n + 3..] == rest
  {
    var r := Render(d);
    assert s[k..n] == s[k..][..|r|];
    assert s[n] == s[k..][|r|];
    assert s[n + 1] == s[k..][|r| + 1];
    assert s[n + 2] == s[k..][|r| + 2];
    assert s[n + 3..] == s[k..][|r| + 3..];
  }

  /** Each verb is a lower-case word, so upper-casing and then lower-casing gives it back. */
  /** The verbs as the scripts record them, upper-cased. */
  const UpperVerbs: seq<string> := ["GET", "POST", "PUT", "DELETE", "PATCH"]

  lemma UpperVerbsOf()
    ensures forall k :: 0 <= k < |Verbs| ==> ToUpper(Verbs[k]) == UpperVerbs[k]
  {
    assert ToUpper("get") == "GET";
    assert ToUpper("post") == "POST";
    assert ToUpper("put") == "PUT";
    assert ToUpper("delete") == "DELETE";
    assert ToUpper("patch") == "PATCH";
  }

  /** A verb upper-cased is one of the recorded methods. */
  lemma UpperOfVerb(v: string)
    requires v in Verbs
    ensures ToUpper(v) in UpperVerbs
  {
    UpperVerbsOf();
    var k := VerbIndex(v);
    assert ToUpper(Verbs[k]) == UpperVerbs[k];
  }

  lemma VerbsRoundTrip(v: string)
    requires v in Verbs
    ensures ToLower(ToUpper(v)) == v
  {
    var alt := VerbIndex(v);
    assert forall k :: 0 <= k < |Verbs[alt]| ==> 'a' <= Verbs[alt][k] <= 'z';
    LowerUpper(v);
  }

  /** The index of a verb among the alternatives. */
  lemma VerbIndex(v: string) returns (alt: nat)
    requires v in Verbs
    ensures alt < |Verbs| && Verbs[alt] == v
  {
    alt :| alt < |Verbs| && Verbs[alt] == v;
  }

  /** A slice that reads `x + y` reads `x` and then `y`. */
  lemma SliceSplit(s: string, i: nat, x: string, y: string)
    requires i + |x| + |y| <= |s| && s[i..i + |x| + |y|] == x + y
    ensures s[i..i + |x|] == x && s[i + |x|..i + |x| + |y|] == y
  {
    assert s[i..i + |x|] == s[i..i + |x| + |y|][..|x|];
    assert s[i + |x|..i + |x| + |y|] == s[i..i + |x| + |y|][|x|..];
  }

  /** A literal read off a slice. */
  lemma {:induction false} LiteralOfSlice(s: string, i: nat, lit: string)
    requires i + |lit| <= |s| && s[i..i + |lit|] == lit
    ensures LiteralAt(s, i, lit)
    decreases |lit|
  {
    if lit != [] {
      assert s[i] == s[i..i + |lit|][0];
      assert s[i + 1..i + 1 + |lit[1..]|] == s[i..i + |lit|][1..];
      LiteralOfSlice(s, i + 1, lit[1..]);
    }
  }

  /** A quote-free slice is a quote-free run. */
  lemma RunOfQuoteFree(s: string, lo: nat, hi: nat, p: string)
    requires lo <= hi <= |s| && s[lo..hi] == p && QuoteFree(p)
    ensures QuoteFreeRun(s, lo, hi)
  {
    forall k | lo <= k < hi ensures !IsQuote(s[k]) {
      assert p[k - lo] == s[k];
    }
  }

  /** The pieces of a rendered declaration, position by position. */
  lemma RenderPieces(s: string, k: nat, d: Declaration)
    requires k + |Render(d)| <= |s| && s[k..k + |Render(d)|] == Render(d)
    ensures var a := k + 4 + |d.verb|;
      && LiteralAt(s, k, "app.") && LiteralAt(s, k + 4, d.verb) && s[a] == '(' && s[a + 1] == d.open
      && s[a + 2..a + 2 + |d.path|] == d.path && s[a + 2 + |d.path|] == d.close
      && a + 3 + |d.path| == k + |Render(d)|
  {
    var p1 := "app." + d.verb;
    var p2 := p1 + "(";
    var p3 := p2 + [d.open];
    var p4 := p3 + d.path;
    SliceSplit(s, k, p4, [d.close]);
    SliceSplit(s, k, p3, d.path);
    SliceSplit(s, k, p2, [d.open]);
    SliceSplit(s, k, p1, "(");
    SliceSplit(s, k, "app.", d.verb);
    LiteralOfSlice(s, k, "app.");
    LiteralOfSlice(s, k + 4, d.verb);
    assert s[k + |p1|] == s[k + |p1|..k + |p2|][0];
    assert s[k + |p2|] == s[k + |p2|..k + |p3|][0];
    assert s[k + |p4|] == s[k + |p4|..k + |p4| + 1][0];
  }

  /** The pieces of a rendered declaration are a match of either pattern. */
  lemma RenderedIsMatch(s: string, k: nat, d: Declaration, alt: nat, spaced: bool) returns (m: Match)
    requires alt < |Verbs| && Verbs[alt] == d.verb && d.path != [] && IsQuote(d.open) && IsQuote(d.close)
    requires var a := k + 4 + |d.verb|;
      && LiteralAt(s, k, "app.") && LiteralAt(s, k + 4, d.verb) && a + 2 + |d.path| < |s|
      && s[a] == '(' && s[a + 1] == d.open && QuoteFreeRun(s, a + 2, a + 2 + |d.path|) && s[a + 2 + |d.path|] == d.close
    ensures var a := k + 4 + |d.verb|;
      && m == Match(alt, a, a + 2, a + 2 + |d.path|) && Attempts(s, spaced)[k] == Some(m)
  {
    var a := k + 4 + |d.verb|;
    m := Match(alt, a, a + 2, a + 2 + |d.path|);
    assert m.pathStart - 1 == a + 1;
    assert SpaceRun(s, a, m.paren) && SpaceRun(s, m.paren + 1, m.pathStart - 1);
    assert IsMatch(s, k, spaced, m);
    AttemptComplete(s, k, spaced, m);
  }

  /** A rendered declaration is matched where it is written, with its verb and path. */
  lemma MatchRendered(s: string, k: nat, d: Declaration, alt: nat, spaced: bool) returns (m: Match)
    requires alt < |Verbs| && Verbs[alt] == d.verb && d.path != [] && QuoteFree(d.path) && IsQuote(d.open) && IsQuote(d.close)
    requires var a := k + 4 + |d.verb|;
      && LiteralAt(s, k, "app.") && LiteralAt(s, k + 4, d.verb) && a + 2 + |d.path| < |s|
      && s[a] == '(' && s[a + 1] == d.open && s[a + 2..a + 2 + |d.path|] == d.path && s[a + 2 + |d.path|] == d.close
    ensures m.End() == k + 4 + |d.verb| + 3 + |d.path| && InText(s, m) && VerbOf(m) == d.verb && PathOf(s, m) == d.path
    ensures Attempts(s, spaced)[k] == Some(m)
  {
    var a := k + 4 + |d.verb|;
    RunOfQuoteFree(s, a + 2, a + 2 + |d.path|, d.path);
    m := RenderedIsMatch(s, k, d, alt, spaced);
  }

  /** The scan reads the first rendered declaration, then moves past its `);` and line break. */
  lemma ScanOne(s: string, k: nat, d: Declaration, rest: string, spaced: bool) returns (m: Match)
    requires WellFormed(d)
    requires k <= |s| && s[k..] == Render(d) + ");\n" + rest
    ensures && m.End() + 3 <= |s| && s[m.End() + 3..] == rest
            && InText(s, m) && VerbOf(m) == d.verb && PathOf(s, m) == d.path
            && AllMatches(s, k, spaced) == [m] + AllMatches(s, m.End() + 3, spaced)
  {
    RenderedPieces(s, k, d, rest, k + |Render(d)|);
    RenderPieces(s, k, d);
    var alt := VerbIndex(d.verb);
    m := MatchRendered(s, k, d, alt, spaced);
    ScanPastTerminator(s, k, m, spaced);
  }

  /** A match followed by `);` and a line break: the scan reports it and resumes after them. */
  lemma ScanPastTerminator(s: string, k: nat, m: Match, spaced: bool)
    requires k <= |s| && Attempts(s, spaced)[k] == Some(m) && m.End() + 3 <= |s|
    requires s[m.End()] == ')' && s[m.End() + 1] == ';' && s[m.End() + 2] == '\n'
    ensures AllMatches(s, k, spaced) == [m] + AllMatches(s, m.End() + 3, spaced)
  {
    NoAttemptOff(s, spaced, m.End());
    NoAttemptOff(s, spaced, m.End() + 1);
    NoAttemptOff(s, spaced, m.End() + 2);
    AttemptsAdvance(s, spaced);
    ScanStep(Attempts(s, spaced), k, m);
  }

  /**
   * The scan of a text that continues with a rendered file of declarations
   * captures exactly those declarations, in order.
   */
  lemma {:induction false} ScanRenderedAt(s: string, k: nat, ds: seq<Declaration>, spaced: bool)
    requires forall d :: d in ds ==> WellFormed(d)
    requires k <= |s| && s[k..] == RenderAll(ds)
    ensures Captures(s, AllMatches(s, k, spaced)) == Written(ds)
    decreases ds
  {
    if ds == [] {
      assert k == |s|;
      NoAttemptAtEnd(s, spaced);
      AttemptsAdvance(s, spaced);
      ScanLast(Attempts(s, spaced));
    } else {
      assert ds[0] in ds;
      var m := ScanOne(s, k, ds[0], RenderAll(ds[1..]), spaced);
      ScanRenderedAt(s, m.End() + 3, ds[1..], spaced);
      assert AllMatches(s, k, spaced)[1..] == AllMatches(s, m.End() + 3, spaced);
    }
  }

  /**
   * Scanning a file of declarations yields exactly one match per
   * declaration, in order, with the written verb and path, for both
   * variants of the pattern.
   */
  lemma ScanRendered(ds: seq<Declaration>, spaced: bool)
    requires forall d :: d in ds ==> WellFormed(d)
    ensures Captures(RenderAll(ds), AllMatches(RenderAll(ds), 0, spaced)) == Written(ds)
  {
    var s := RenderAll(ds);
    assert s[0..] == s;
    ScanRenderedAt(s, 0, ds, spaced);
  }

  /** Only the spaced pattern accepts blanks between the verb and `(`. */
  lemma SpaceBeforeParen()
    ensures MatchAt("app.get (\"/x\"", 0, true) == Some(Match(0, 8, 10, 12))
    ensures MatchAt("app.get (\"/x\"", 0, false) == None
  {
    var s := "app.get (\"/x\"";
    SpacedBeforeParen(s);
    UnspacedBeforeParen(s);
  }

  lemma SpacedBeforeParen(s: string)
    requires s == "app.get (\"/x\""
    ensures MatchAt(s, 0, true) == Some(Match(0, 8, 10, 12))
  {
    assert IsSpace(s[7]) && IsQuote(s[9]) && !IsQuote(s[10]) && !IsQuote(s[11]) && IsQuote(s[12]);
    assert IsMatch(s, 0, true, Match(0, 8, 10, 12));
    MatchAtComplete(s, 0, true, Match(0, 8, 10, 12));
  }

  lemma UnspacedBeforeParen(s: string)
    requires s == "app.get (\"/x\""
    ensures MatchAt(s, 0, false) == None
  {
    VerbAtWritten(s, 4, 0, 0);
  }
}
