/**
 Fuzzy model-name resolution over ASCII names, with exact real scores. The search is an argmax
 under (score, then shorter, then lexicographically smaller); its result does not depend on the
 order in which the catalog lists its names.
 */
module ModelIndex {
  import opened Wrappers
  import opened Sequences

  type AsciiChar = c: char | c as int < 128 witness 'a'

  type Name = seq<AsciiChar>

  datatype ModelEntry = ModelEntry(original: Name, normalized: Name, tokens: seq<Name>)

  function LowerChar(c: AsciiChar): AsciiChar {
    if 'A' <= c <= 'Z' then (c as int + 32) as char else c
  }

  function Lower(s: Name): (r: Name)
    ensures |r| == |s|
    ensures forall i :: 0 <= i < |s| ==> r[i] == LowerChar(s[i])
  {
    if s == [] then [] else [LowerChar(s[0])] + Lower(s[1..])
  }

  lemma LowerIdempotent(s: Name)
    ensures Lower(Lower(s)) == Lower(s)
  {
  }

  predicate IsSeparator(c: AsciiChar) {
    c == '-' || c == '_' || c == '.' || c == '/'
  }

  /** Case is ASCII case: two letters differ by 32 in code. */
  predicate SameLetter(c: AsciiChar, d: AsciiChar) {
    || c == d
    || ('A' <= c <= 'Z' && d as int == c as int + 32)
    || ('A' <= d <= 'Z' && c as int == d as int + 32)
  }

  lemma LowerCharIff(c: AsciiChar, d: AsciiChar)
    ensures LowerChar(c) == LowerChar(d) <==> SameLetter(c, d)
  {
  }

  lemma LowerEqualIff(a: Name, b: Name)
    ensures Lower(a) == Lower(b) <==> |a| == |b| && forall i :: 0 <= i < |a| ==> SameLetter(a[i], b[i])
  {
    SameWhenEqual(a, b, Lower(a), Lower(b));
  }

  lemma SameWhenEqual(a: Name, b: Name, la: Name, lb: Name)
    requires |la| == |a| && forall i :: 0 <= i < |a| ==> la[i] == LowerChar(a[i])
    requires |lb| == |b| && forall i :: 0 <= i < |b| ==> lb[i] == LowerChar(b[i])
    ensures la == lb <==> |a| == |b| && forall i :: 0 <= i < |a| ==> SameLetter(a[i], b[i])
  {
    if |a| == |b| {
      forall i | 0 <= i < |a|
        ensures la[i] == lb[i] <==> SameLetter(a[i], b[i])
      {
        LowerCharIff(a[i], b[i]);
      }
    }
  }

  lemma SeparatorsAre(c: AsciiChar)
    ensures IsSeparator(c) <==> c in "-_./"
  {
  }

  /** Split at separators, dropping empty pieces; `word` is the piece being read. */
  function Split(s: Name, word: Name): seq<Name> {
    var flushed := if word == [] then [] else [word];
    if s == [] then flushed
    else if IsSeparator(s[0]) then flushed + Split(s[1..], [])
    else Split(s[1..], word + [s[0]])
  }

  function Tokenize(name: Name): seq<Name> {
    Split(Lower(name), [])
  }

  function Flatten(pieces: seq<Name>): Name {
    if pieces == [] then [] else pieces[0] + Flatten(pieces[1..])
  }

  function WithoutSeparators(s: Name): Name {
    if s == [] then [] else (if IsSeparator(s[0]) then [] else [s[0]]) + WithoutSeparators(s[1..])
  }

  predicate IsToken(piece: Name) {
    piece != [] && forall c :: c in piece ==> !IsSeparator(c)
  }

  lemma {:induction false} SplitKeepsText(s: Name, word: Name)
    requires forall c :: c in word ==> !IsSeparator(c)
    ensures forall piece :: piece in Split(s, word) ==> IsToken(piece)
    ensures Flatten(Split(s, word)) == word + WithoutSeparators(s)
  {
    if s == [] {
      assert [word][1..] == [];
    } else if IsSeparator(s[0]) {
      SplitKeepsText(s[1..], []);
      if word != [] {
        assert ([word] + Split(s[1..], []))[1..] == Split(s[1..], []);
      }
      assert [] + Split(s[1..], []) == Split(s[1..], []);
    } else {
      SplitKeepsText(s[1..], word + [s[0]]);
      assert word + ([s[0]] + WithoutSeparators(s[1..])) == (word + [s[0]]) + WithoutSeparators(s[1..]);
    }
  }

  /** Tokens are non-empty and free of separators, and together they are the lower-case name without its separators. */
  lemma TokensArePieces(name: Name)
    ensures forall t :: t in Tokenize(name) ==> IsToken(t)
    ensures Flatten(Tokenize(name)) == WithoutSeparators(Lower(name))
  {
    SplitKeepsText(Lower(name), []);
  }

  lemma {:induction false} SplitAtSeparator(a: Name, c: AsciiChar, b: Name, word: Name)
    requires IsSeparator(c)
    ensures Split(a + [c] + b, word) == Split(a, word) + Split(b, [])
  {
    var s := a + [c] + b;
    if a == [] {
      assert s == [c] + b && s[1..] == b;
    } else {
      assert s[0] == a[0] && s[1..] == a[1..] + [c] + b;
      if IsSeparator(a[0]) {
        SplitAtSeparator(a[1..], c, b, []);
        Associative(if word == [] then [] else [word], Split(a[1..], []), Split(b, []));
      } else {
        SplitAtSeparator(a[1..], c, b, word + [a[0]]);
      }
    }
  }

  lemma {:induction false} SplitWord(s: Name, word: Name)
    requires forall c :: c in s ==> !IsSeparator(c)
    ensures Split(s, word) == if word + s == [] then [] else [word + s]
  {
    if s == [] {
      assert word + s == word;
    } else {
      SplitWord(s[1..], word + [s[0]]);
      assert (word + [s[0]]) + s[1..] == word + s;
    }
  }

  lemma LowerKeepsSeparators(s: Name)
    ensures forall c: AsciiChar :: IsSeparator(LowerChar(c)) <==> IsSeparator(c)
    ensures (forall c :: c in s ==> !IsSeparator(c)) ==> forall c :: c in Lower(s) ==> !IsSeparator(c)
  {
    forall c | c in Lower(s)
      ensures exists d :: d in s && c == LowerChar(d)
    {
      var i :| 0 <= i < |Lower(s)| && Lower(s)[i] == c;
      assert s[i] in s;
    }
  }

  /**
   Consecutive tokens are separated by a separator of the name, and nothing else separates: a separator
   anywhere divides the tokens into those before it and those after it, and a word without one is one token.
   */
  lemma TokensSplitAtSeparators(a: Name, c: AsciiChar, b: Name)
    requires IsSeparator(c)
    ensures Tokenize(a + [c] + b) == Tokenize(a) + Tokenize(b)
  {
    assert LowerChar(c) == c;
    assert Lower(a + [c] + b) == Lower(a) + [c] + Lower(b);
    SplitAtSeparator(Lower(a), c, Lower(b), []);
  }

  lemma WordIsOneToken(w: Name)
    requires w != [] && forall c :: c in w ==> !IsSeparator(c)
    ensures Tokenize(w) == [Lower(w)]
  {
    LowerKeepsSeparators(w);
    SplitWord(Lower(w), []);
    assert [] + Lower(w) == Lower(w);
  }

  function EntryOf(name: Name): ModelEntry {
    ModelEntry(name, Lower(name), Tokenize(name))
  }

  // ---- the score ----

  function Weight(i: nat): real {
    1.0 / (1.0 + i as real)
  }

  function TotalWeight(n: nat): real {
    if n == 0 then 0.0 else TotalWeight(n - 1) + Weight(n - 1)
  }

  /** The weight of the first n requested tokens that the candidate has. */
  function MatchedWeight(requested: seq<Name>, candidate: seq<Name>, n: nat): real
    requires n <= |requested|
  {
    if n == 0 then 0.0
    else MatchedWeight(requested, candidate, n - 1) + (if requested[n - 1] in candidate then Weight(n - 1) else 0.0)
  }

  function Max(a: nat, b: nat): nat {
    if a < b then b else a
  }

  lemma {:induction false} WeightsBounded(requested: seq<Name>, candidate: seq<Name>, n: nat)
    requires n <= |requested|
    ensures 0.0 <= MatchedWeight(requested, candidate, n) <= TotalWeight(n)
  {
    if n > 0 {
      WeightsBounded(requested, candidate, n - 1);
    }
  }

  lemma {:induction false} TotalGrows(m: nat, n: nat)
    requires m <= n
    ensures 0.0 <= TotalWeight(m) <= TotalWeight(n)
    ensures 0 < n ==> TotalWeight(n) >= 1.0
  {
    if n > 0 {
      TotalGrows(if m < n then m else m - 1, n - 1);
      if n == 1 {
        assert TotalWeight(1) == TotalWeight(0) + Weight(0);
      }
    }
  }

  function ScoreOf(req: ModelEntry, cand: ModelEntry): real {
    if req.normalized == cand.normalized then 1.0
    else if req.normalized <= cand.normalized then 0.8 + 0.2 * (|req.normalized| as real / |cand.normalized| as real)
    else if cand.normalized <= req.normalized then 0.8 + 0.2 * (|cand.normalized| as real / |req.normalized| as real)
    else
      var n := Max(|req.tokens|, |cand.tokens|);
      if n == 0 then 0.0
      else
        TotalGrows(0, n);
        MatchedWeight(req.tokens, cand.tokens, |req.tokens|) / TotalWeight(n)
  }

  /** A score is a fraction of one. */
  lemma ScoreInUnitInterval(req: ModelEntry, cand: ModelEntry)
    ensures 0.0 <= ScoreOf(req, cand) <= 1.0
  {
    var r, c := |req.normalized|, |cand.normalized|;
    if req.normalized == cand.normalized {
    } else if req.normalized <= cand.normalized {
      Fraction(r as real, c as real);
    } else if cand.normalized <= req.normalized {
      Fraction(c as real, r as real);
    } else {
      var n := Max(|req.tokens|, |cand.tokens|);
      if n != 0 {
        WeightsBounded(req.tokens, cand.tokens, |req.tokens|);
        TotalGrows(|req.tokens|, n);
        Fraction(MatchedWeight(req.tokens, cand.tokens, |req.tokens|), TotalWeight(n));
      }
    }
  }

  lemma Fraction(a: real, b: real)
    requires 0.0 <= a <= b && 0.0 < b
    ensures 0.0 <= a / b <= 1.0
  {
  }

  /** The two accumulator loops; the second adds the weights of candidate positions past the request's length. */
  method Score(req: ModelEntry, cand: ModelEntry) returns (s: real)
    ensures s == ScoreOf(req, cand)
  {
    if req.normalized == cand.normalized {
      return 1.0;
    }
    if req.normalized <= cand.normalized {
      return 0.8 + 0.2 * (|req.normalized| as real / |cand.normalized| as real);
    }
    if cand.normalized <= req.normalized {
      return 0.8 + 0.2 * (|cand.normalized| as real / |req.normalized| as real);
    }
    var maxLen := Max(|req.tokens|, |cand.tokens|);
    if maxLen == 0 {
      return 0.0;
    }
    var weightedMatches, totalWeight := 0.0, 0.0;
    for i := 0 to |req.tokens|
      invariant weightedMatches == MatchedWeight(req.tokens, cand.tokens, i) && totalWeight == TotalWeight(i)
    {
      var weight := 1.0 / (1.0 + i as real);
      totalWeight := totalWeight + weight;
      if req.tokens[i] in cand.tokens {
        weightedMatches := weightedMatches + weight;
      }
    }
    for i := 0 to |cand.tokens|
      invariant totalWeight == TotalWeight(Max(|req.tokens|, i))
    {
      if i >= |req.tokens| {
        var weight := 1.0 / (1.0 + i as real);
        totalWeight := totalWeight + weight;
      }
    }
    TotalGrows(0, maxLen);
    return weightedMatches / totalWeight;
  }

  // ---- the order ----

  predicate LexLess(a: Name, b: Name) {
    b != [] && (a == [] || a[0] < b[0] || (a[0] == b[0] && LexLess(a[1..], b[1..])))
  }

  lemma {:induction false} LexTotal(a: Name, b: Name)
    ensures LexLess(a, b) || LexLess(b, a) || a == b
    ensures !(LexLess(a, b) && LexLess(b, a)) && !LexLess(a, a)
  {
    if a != [] {
      if b != [] {
        LexTotal(a[1..], b[1..]);
        assert a == [a[0]] + a[1..] && b == [b[0]] + b[1..];
      }
      LexTotal(a[1..], a[1..]);
    }
  }

  lemma {:induction false} LexTransitive(a: Name, b: Name, c: Name)
    requires LexLess(a, b) && LexLess(b, c)
    ensures LexLess(a, c)
  {
    if a != [] && a[0] == b[0] == c[0] {
      LexTransitive(a[1..], b[1..], c[1..]);
    }
  }

  const THRESHOLD := 0.5

  function NameScore(requested: Name, name: Name): real {
    ScoreOf(EntryOf(requested), EntryOf(name))
  }

  /** `a` is preferred to `b`. */
  predicate Beats(requested: Name, a: Name, b: Name) {
    var sa, sb := NameScore(requested, a), NameScore(requested, b);
    sa > sb || (sa == sb && (|a| < |b| || (|a| == |b| && LexLess(a, b))))
  }

  lemma BeatsIsStrictOrder(requested: Name, a: Name, b: Name, c: Name)
    ensures a != b ==> Beats(requested, a, b) || Beats(requested, b, a)
    ensures !(Beats(requested, a, b) && Beats(requested, b, a))
    ensures Beats(requested, a, b) && Beats(requested, b, c) ==> Beats(requested, a, c)
  {
    LexTotal(a, b);
    if LexLess(a, b) && LexLess(b, c) {
      LexTransitive(a, b, c);
    }
  }

  /** Lexicographic order: the first difference decides, and a proper prefix comes first. */
  lemma {:induction false} LexIs(a: Name, b: Name)
    ensures LexLess(a, b) <==>
            exists k :: 0 <= k <= |a| && k < |b| && a[..k] == b[..k] && (k == |a| || a[k] < b[k])
  {
    if a == [] {
      assert b != [] ==> a[..0] == b[..0];
    } else if b != [] {
      LexIs(a[1..], b[1..]);
      if a[0] < b[0] {
        assert a[..0] == b[..0];
      }
      if k :| 0 <= k <= |a| - 1 && k < |b| - 1 && a[1..][..k] == b[1..][..k] && (k == |a| - 1 || a[1..][k] < b[1..][k]) {
        if a[0] == b[0] {
          assert a[..k + 1] == [a[0]] + a[1..][..k] && b[..k + 1] == [b[0]] + b[1..][..k];
        }
      }
      if k :| 0 < k <= |a| && k < |b| && a[..k] == b[..k] && (k == |a| || a[k] < b[k]) {
        assert a[0] == a[..k][0] && b[0] == b[..k][0];
        assert a[1..][..k - 1] == a[..k][1..] && b[1..][..k - 1] == b[..k][1..];
      }
    }
  }

  /** A prefix scores four fifths and a share of the last fifth. */
  lemma ScoreOfPrefix(req: ModelEntry, cand: ModelEntry)
    requires req.normalized <= cand.normalized && cand.normalized != []
    ensures var score := 0.8 + 0.2 * (|req.normalized| as real / |cand.normalized| as real);
            ScoreOf(req, cand) == ScoreOf(cand, req) == score >= 0.8
  {
    Fraction(|req.normalized| as real, |cand.normalized| as real);
    if |req.normalized| == |cand.normalized| {
      assert req.normalized == cand.normalized;
      assert |req.normalized| as real / |cand.normalized| as real == 1.0;
    }
  }

  /** A request that is a prefix of a catalog name, or the other way round, up to case, is well above the threshold. */
  lemma PrefixScore(a: Name, b: Name)
    requires Lower(a) <= Lower(b) && b != []
    ensures NameScore(a, b) == NameScore(b, a) == 0.8 + 0.2 * (|a| as real / |b| as real) >= 0.8 > THRESHOLD
  {
    ScoreOfPrefix(EntryOf(a), EntryOf(b));
  }

  /** Otherwise tokens decide: none shared scores nothing, and all shared, with no longer candidate, scores one. */
  lemma TokenScoreEnds(req: ModelEntry, cand: ModelEntry)
    requires !(req.normalized <= cand.normalized) && !(cand.normalized <= req.normalized)
    ensures (forall t :: t in req.tokens ==> t !in cand.tokens) ==> ScoreOf(req, cand) == 0.0
    ensures (req.tokens != [] && |cand.tokens| <= |req.tokens| && forall t :: t in req.tokens ==> t in cand.tokens) ==>
            ScoreOf(req, cand) == 1.0
  {
    var n := Max(|req.tokens|, |cand.tokens|);
    MatchedEnds(req.tokens, cand.tokens, |req.tokens|);
    TotalGrows(0, n);
  }

  lemma {:induction false} MatchedEnds(requested: seq<Name>, candidate: seq<Name>, n: nat)
    requires n <= |requested|
    ensures (forall t :: t in requested ==> t !in candidate) ==> MatchedWeight(requested, candidate, n) == 0.0
    ensures (forall t :: t in requested ==> t in candidate) ==> MatchedWeight(requested, candidate, n) == TotalWeight(n)
  {
    if n > 0 {
      MatchedEnds(requested, candidate, n - 1);
      assert requested[n - 1] in requested;
    }
  }

  /** The k-th token of a request weighs 1/k. */
  lemma TokenWeights(requested: seq<Name>, candidate: seq<Name>, n: nat)
    requires n < |requested|
    ensures MatchedWeight(requested, candidate, n + 1) - MatchedWeight(requested, candidate, n) ==
            if requested[n] in candidate then 1.0 / (n + 1) as real else 0.0
    ensures TotalWeight(n + 1) - TotalWeight(n) == 1.0 / (n + 1) as real
  {
    assert (n + 1) as real == 1.0 + n as real;
  }

  predicate EqualUpToCase(a: Name, b: Name) {
    Lower(a) == Lower(b)
  }

  /** What resolution promises, in terms of the set of catalog names. */
  predicate IsResolution(names: set<Name>, requested: Name, r: Option<Name>) {
    if exists n :: n in names && EqualUpToCase(n, requested) then
      r.Some? && r.value in names && EqualUpToCase(r.value, requested)
    else IsFuzzyBest(names, requested, r)
  }

  /** The best candidate at or above the threshold; none exactly if there is no such candidate. */
  predicate IsFuzzyBest(names: set<Name>, requested: Name, r: Option<Name>) {
    match r
    case None => forall n :: n in names ==> NameScore(requested, n) < THRESHOLD
    case Some(b) =>
      && b in names && NameScore(requested, b) >= THRESHOLD
      && forall n :: n in names && n != b ==> Beats(requested, b, n)
  }

  /** The names determine the fuzzy answer, whatever order a catalog lists them in. */
  lemma FuzzyBestIsUnique(names: set<Name>, requested: Name, r: Option<Name>, r': Option<Name>)
    requires IsFuzzyBest(names, requested, r) && IsFuzzyBest(names, requested, r')
    ensures r == r'
  {
    if r.Some? && r'.Some? && r != r' {
      BeatsIsStrictOrder(requested, r.value, r'.value, r.value);
    }
  }

  /** The fuzzy answer in numbers: at least one half, then score, then shorter, then lexicographically smaller. */
  lemma FuzzyBestIs(names: set<Name>, requested: Name, b: Name)
    requires IsFuzzyBest(names, requested, Some(b))
    ensures !IsFuzzyBest(names, requested, None)
    ensures b in names && NameScore(requested, b) >= 0.5
    ensures forall n :: n in names && n != b ==>
              var s, t := NameScore(requested, b), NameScore(requested, n);
              s > t || (s == t && (|b| < |n| || (|b| == |n| && LexLess(b, n))))
  {
    forall n | n in names && n != b
      ensures var s, t := NameScore(requested, b), NameScore(requested, n);
              s > t || (s == t && (|b| < |n| || (|b| == |n| && LexLess(b, n))))
    {
      assert Beats(requested, b, n);
    }
  }

  lemma NoFuzzyBestIff(names: set<Name>, requested: Name)
    ensures IsFuzzyBest(names, requested, None) <==> forall n :: n in names ==> NameScore(requested, n) < 0.5
  {
  }

  function NamesOf(entries: seq<ModelEntry>): set<Name> {
    set i | 0 <= i < |entries| :: entries[i].original
  }

  /** The index is built from the catalog's names: distinct keys, each normalized and tokenized once. */
  predicate Built(entries: seq<ModelEntry>) {
    && (forall i :: 0 <= i < |entries| ==> entries[i] == EntryOf(entries[i].original))
    && (forall i, j :: 0 <= i < j < |entries| ==> entries[i].original != entries[j].original)
  }

  method Resolve(entries: seq<ModelEntry>, requested: Name) returns (r: Option<Name>)
    requires Built(entries)
    ensures IsResolution(NamesOf(entries), requested, r)
  {
    for i := 0 to |entries|
      invariant forall j :: 0 <= j < i ==> !EqualUpToCase(entries[j].original, requested)
    {
      LowerIdempotent(entries[i].original);
      if Lower(entries[i].normalized) == Lower(requested) {
        assert entries[i].original in NamesOf(entries);
        return Some(entries[i].original);
      }
    }
    r := ResolveFuzzy(entries, requested);
  }

  method ResolveFuzzy(entries: seq<ModelEntry>, requested: Name) returns (r: Option<Name>)
    requires Built(entries)
    ensures IsFuzzyBest(NamesOf(entries), requested, r)
  {
    var req := EntryOf(requested);
    var bestScore := THRESHOLD;
    var best: Option<ModelEntry> := None;
    for i := 0 to |entries|
      invariant best.None? ==> forall j :: 0 <= j < i ==> NameScore(requested, entries[j].original) < THRESHOLD
      invariant best.Some? ==>
                && best.value == EntryOf(best.value.original) && best.value.original in NamesOf(entries[..i])
                && bestScore == NameScore(requested, best.value.original) >= THRESHOLD
                && forall j :: 0 <= j < i && entries[j].original != best.value.original ==>
                     Beats(requested, best.value.original, entries[j].original)
    {
      var entry := entries[i];
      var s := Score(req, entry);
      var dominates := match best
        case None => s >= THRESHOLD
        case Some(b) =>
          s > bestScore ||
          (s == bestScore && (|entry.original| < |b.original| ||
                              (|entry.original| == |b.original| && LexLess(entry.original, b.original))));
      assert NamesOf(entries[..i + 1]) == NamesOf(entries[..i]) + {entry.original} by {
        NamesSnoc(entries, i);
      }
      if best.Some? {
        NewcomerOrIncumbent(requested, best.value.original, entry.original, entries, i);
      }
      if dominates {
        bestScore := s;
        best := Some(entry);
      }
    }
    assert entries[..|entries|] == entries;
    r := match best case None => None case Some(e) => Some(e.original);
  }

  lemma NamesSnoc(entries: seq<ModelEntry>, i: nat)
    requires i < |entries|
    ensures NamesOf(entries[..i + 1]) == NamesOf(entries[..i]) + {entries[i].original}
  {
    forall n
      ensures n in NamesOf(entries[..i + 1]) <==> n in NamesOf(entries[..i]) + {entries[i].original}
    {
      if n in NamesOf(entries[..i + 1]) {
        var j :| 0 <= j < i + 1 && entries[..i + 1][j].original == n;
        assert j < i ==> entries[..i][j].original == n;
      }
      if n in NamesOf(entries[..i]) {
        var j :| 0 <= j < i && entries[..i][j].original == n;
        assert entries[..i + 1][j].original == n;
      }
      if n == entries[i].original {
        assert entries[..i + 1][i].original == n;
      }
    }
  }

  /** Whichever of the two wins beats everything the incumbent beat. */
  lemma NewcomerOrIncumbent(requested: Name, best: Name, newcomer: Name, entries: seq<ModelEntry>, i: nat)
    requires i <= |entries|
    requires forall j :: 0 <= j < i && entries[j].original != best ==> Beats(requested, best, entries[j].original)
    ensures Beats(requested, newcomer, best) ==>
            forall j :: 0 <= j < i && entries[j].original != newcomer ==> Beats(requested, newcomer, entries[j].original)
    ensures newcomer != best ==> Beats(requested, newcomer, best) || Beats(requested, best, newcomer)
  {
    forall j | 0 <= j < i && entries[j].original != newcomer && Beats(requested, newcomer, best)
      ensures Beats(requested, newcomer, entries[j].original)
    {
      if entries[j].original != best {
        BeatsIsStrictOrder(requested, newcomer, best, entries[j].original);
      }
    }
    BeatsIsStrictOrder(requested, newcomer, best, best);
  }
}
