/** The term-frequency back end: tokenisation into lower-case words, per-message term
    counts, a score per message, a stable ranking by descending score and one page of it.

    The floating-point score `score / n * (matched / n)` (n = number of query tokens) is
    replaced by the integer key `score * matched`; for a fixed query the two order
    messages identically (`FloatKeyOrder`). Word characters are ASCII `[A-Za-z0-9_]`. */
module TermFrequency {
  import opened Wrappers
  import opened Text
  import opened Records
  import StableSort

  // ---------------------------------------------------------------------------------
  // Tokenisation: `re.findall(r'\b\w+\b', text.lower())`, i.e. the maximal runs of word
  // characters of the lower-cased text, left to right.

  ghost predicate AllWord(s: string) { forall k :: 0 <= k < |s| ==> IsWordChar(s[k]) }

  ghost predicate NoWord(s: string) { forall k :: 0 <= k < |s| ==> !IsWordChar(s[k]) }

  /** Length of the longest prefix made of word characters. */
  function WordLen(s: string): (n: nat)
    ensures n <= |s|
    ensures n < |s| ==> !IsWordChar(s[n])
    ensures s != [] && IsWordChar(s[0]) ==> n >= 1
  {
    if s != [] && IsWordChar(s[0]) then 1 + WordLen(s[1..]) else 0
  }

  /** Length of the longest prefix free of word characters. */
  function GapLen(s: string): (n: nat)
    ensures n <= |s|
    ensures n < |s| ==> IsWordChar(s[n])
  {
    if s != [] && !IsWordChar(s[0]) then 1 + GapLen(s[1..]) else 0
  }

  lemma {:induction false} WordLenPrefix(s: string)
    ensures AllWord(s[..WordLen(s)])
  {
    if s != [] && IsWordChar(s[0]) {
      WordLenPrefix(s[1..]);
      assert s[..WordLen(s)] == [s[0]] + s[1..][..WordLen(s[1..])];
    }
  }

  lemma {:induction false} GapLenPrefix(s: string)
    ensures NoWord(s[..GapLen(s)])
  {
    if s != [] && !IsWordChar(s[0]) {
      GapLenPrefix(s[1..]);
      assert s[..GapLen(s)] == [s[0]] + s[1..][..GapLen(s[1..])];
    }
  }

  /** The maximal runs of word characters of `s`, in order. */
  function Runs(s: string): seq<string>
    decreases |s|
  {
    var g := GapLen(s);
    if g == |s| then []
    else
      var w := WordLen(s[g..]);
      [s[g..g + w]] + Runs(s[g + w..])
  }

  /** The separators around the runs: the text before the first run, between runs, and
      after the last run. */
  function Gaps(s: string): seq<string>
    decreases |s|
  {
    var g := GapLen(s);
    if g == |s| then [s]
    else
      var w := WordLen(s[g..]);
      [s[..g]] + Gaps(s[g + w..])
  }

  /** Interleaves separators and words: gaps[0] + words[0] + gaps[1] + ... + gaps[n]. */
  function Weave(gaps: seq<string>, words: seq<string>): string
    requires |gaps| == |words| + 1
  {
    if words == [] then gaps[0] else gaps[0] + words[0] + Weave(gaps[1..], words[1..])
  }

  function Tokenize(text: string): seq<string> {
    Runs(Lower(text))
  }

  lemma SplitAt<T>(s: seq<T>, i: nat, j: nat)
    requires i <= j <= |s|
    ensures s == s[..i] + s[i..j] + s[j..]
  {
  }

  lemma {:induction false} RunsWeave(s: string)
    decreases |s|
    ensures |Gaps(s)| == |Runs(s)| + 1
    ensures Weave(Gaps(s), Runs(s)) == s
  {
    var g := GapLen(s);
    if g == |s| {
      assert s[..g] == s;
    } else {
      var w := WordLen(s[g..]);
      var gap, word, rest := s[..g], s[g..g + w], s[g + w..];
      RunsWeave(rest);
      var gs, rs := Gaps(rest), Runs(rest);
      assert Runs(s) == [word] + rs;
      assert Gaps(s) == [gap] + gs;
      assert Weave(Gaps(s), Runs(s)) == gap + word + Weave(gs, rs);
      SplitAt(s, g, g + w);
    }
  }

  lemma {:induction false} RunsAreWords(s: string)
    decreases |s|
    ensures forall i :: 0 <= i < |Runs(s)| ==> Runs(s)[i] != [] && AllWord(Runs(s)[i])
  {
    var g := GapLen(s);
    if g < |s| {
      var w := WordLen(s[g..]);
      var word, rest := s[g..g + w], s[g + w..];
      RunsAreWords(rest);
      var rs := Runs(rest);
      assert Runs(s) == [word] + rs;
      assert word == s[g..][..w];
      WordLenPrefix(s[g..]);
    }
  }

  lemma ConsIndex<T>(x: T, xs: seq<T>, i: nat)
    requires 1 <= i <= |xs|
    ensures ([x] + xs)[i] == xs[i - 1]
  {
  }

  /** A character of a woven word is a character of the woven text. */
  lemma {:induction false} WeaveKeepsLowerCase(gaps: seq<string>, words: seq<string>)
    requires |gaps| == |words| + 1
    requires forall k :: 0 <= k < |Weave(gaps, words)| ==> !IsUpper(Weave(gaps, words)[k])
    ensures forall i, k :: 0 <= i < |words| && 0 <= k < |words[i]| ==> !IsUpper(words[i][k])
  {
    if words != [] {
      var text := Weave(gaps, words);
      var head, tail := gaps[0] + words[0], Weave(gaps[1..], words[1..]);
      assert text == head + tail;
      assert forall k :: 0 <= k < |tail| ==> tail[k] == text[|head| + k];
      WeaveKeepsLowerCase(gaps[1..], words[1..]);
      forall i, k | 0 <= i < |words| && 0 <= k < |words[i]| ensures !IsUpper(words[i][k]) {
        if i == 0 {
          assert words[0][k] == text[|gaps[0]| + k];
        } else {
          assert words[i] == words[1..][i - 1];
        }
      }
    }
  }

  /** Every character of a run is a character of `s`, so a property of all characters of
      `s` (here: not upper case) carries over to the runs. */
  lemma {:induction false} RunsKeepLowerCase(s: string)
    requires forall k :: 0 <= k < |s| ==> !IsUpper(s[k])
    ensures forall i, k :: 0 <= i < |Runs(s)| && 0 <= k < |Runs(s)[i]| ==> !IsUpper(Runs(s)[i][k])
  {
    RunsWeave(s);
    WeaveKeepsLowerCase(Gaps(s), Runs(s));
  }

  /** Each separator is free of word characters. */
  lemma {:induction false} GapIsSeparator(s: string, i: nat)
    requires i < |Gaps(s)|
    decreases |s|
    ensures NoWord(Gaps(s)[i])
  {
    var g := GapLen(s);
    GapLenPrefix(s);
    if g == |s| {
      assert s[..g] == s;
    } else if i > 0 {
      var rest := s[g + WordLen(s[g..])..];
      var gs := Gaps(rest);
      assert Gaps(s) == [s[..g]] + gs;
      ConsIndex(s[..g], gs, i);
      GapIsSeparator(rest, i - 1);
    }
  }

  lemma GapsAreSeparators(s: string)
    ensures forall i :: 0 <= i < |Gaps(s)| ==> NoWord(Gaps(s)[i])
  {
    forall i | 0 <= i < |Gaps(s)| ensures NoWord(Gaps(s)[i]) {
      GapIsSeparator(s, i);
    }
  }

  /** Every separator strictly between two words is non-empty, and so is the first one
      when the text starts with a non-word character. */
  lemma {:induction false} InnerGapsNonEmpty(s: string)
    decreases |s|
    ensures forall i :: 0 < i < |Gaps(s)| - 1 ==> Gaps(s)[i] != []
    ensures s != [] && !IsWordChar(s[0]) ==> Gaps(s)[0] != []
  {
    var g := GapLen(s);
    if g < |s| {
      var w := WordLen(s[g..]);
      assert IsWordChar(s[g..][0]);
      var rest := s[g + w..];
      InnerGapsNonEmpty(rest);
      assert Gaps(s) == [s[..g]] + Gaps(rest);
      assert rest != [] ==> !IsWordChar(rest[0]) by {
        if rest != [] { assert rest[0] == s[g..][w]; }
      }
      assert |Gaps(rest)| > 1 ==> rest != [];
    }
  }

  /** `Runs` splits `s` into words and separators that weave back into `s`: every word is
      a non-empty run of word characters drawn from `s`, every separator is free of word
      characters, and the separators between two words are non-empty, so the words are
      maximal runs. */
  lemma RunsDecompose(s: string)
    ensures |Gaps(s)| == |Runs(s)| + 1
    ensures Weave(Gaps(s), Runs(s)) == s
    ensures forall i :: 0 <= i < |Runs(s)| ==> Runs(s)[i] != [] && AllWord(Runs(s)[i])
    ensures forall i :: 0 <= i < |Gaps(s)| ==> NoWord(Gaps(s)[i])
    ensures forall i :: 0 < i < |Runs(s)| ==> Gaps(s)[i] != []
  {
    RunsWeave(s);
    RunsAreWords(s);
    GapsAreSeparators(s);
    InnerGapsNonEmpty(s);
  }

  /** Tokens are non-empty, lower-case and made of word characters; tokenising text that
      is already lower-cased (as the search loop does with message bodies) changes
      nothing. */
  lemma TokenizeFacts(text: string)
    ensures forall i :: 0 <= i < |Tokenize(text)| ==> Tokenize(text)[i] != []
    ensures forall i, k :: 0 <= i < |Tokenize(text)| && 0 <= k < |Tokenize(text)[i]| ==>
      IsWordChar(Tokenize(text)[i][k]) && !IsUpper(Tokenize(text)[i][k])
    ensures Tokenize(Lower(text)) == Tokenize(text)
  {
    var s := Lower(text);
    RunsAreWords(s);
    RunsKeepLowerCase(s);
    LowerIdempotent(text);
  }

  // ---------------------------------------------------------------------------------
  // Term frequencies: `dict(Counter(tokens))`.

  function TermFrequency(tokens: seq<string>): map<string, nat> {
    if tokens == [] then map[]
    else
      var m := TermFrequency(tokens[1..]);
      m[tokens[0] := (if tokens[0] in m then m[tokens[0]] else 0) + 1]
  }

  /** The keys are exactly the distinct tokens and each maps to its number of
      occurrences. */
  lemma {:induction false} TermFrequencyCounts(tokens: seq<string>)
    ensures forall t :: t in TermFrequency(tokens) <==> t in tokens
    ensures forall t :: t in TermFrequency(tokens) ==> TermFrequency(tokens)[t] == multiset(tokens)[t]
  {
    if tokens != [] {
      TermFrequencyCounts(tokens[1..]);
      assert tokens == [tokens[0]] + tokens[1..];
    }
  }

  ghost function PickKey(m: map<string, nat>): (k: string)
    requires m != map[]
    ensures k in m
  {
    assert m.Keys != {};
    var k :| k in m.Keys; k
  }

  /** The sum of all counts of a frequency map. */
  ghost function SumCounts(m: map<string, nat>): nat
    decreases |m.Keys|
  {
    if m == map[] then 0
    else
      var k := PickKey(m);
      assert (m - {k}).Keys == m.Keys - {k};
      m[k] + SumCounts(m - {k})
  }

  /** `s` with every occurrence of `t` removed. */
  function RemoveAll(s: seq<string>, t: string): (r: seq<string>)
    ensures multiset(r) == multiset(s)[t := 0]
    ensures |r| == |s| - multiset(s)[t]
  {
    if s == [] then []
    else
      assert s == [s[0]] + s[1..];
      (if s[0] == t then [] else [s[0]]) + RemoveAll(s[1..], t)
  }

  lemma {:induction false} SumCountsIsLength(m: map<string, nat>, s: seq<string>)
    requires forall t :: t in m <==> t in s
    requires forall t :: t in m ==> m[t] == multiset(s)[t]
    ensures SumCounts(m) == |s|
    decreases |m.Keys|
  {
    assert s != [] ==> s[0] in m;
    if m != map[] {
      var k := PickKey(m);
      var m', s' := m - {k}, RemoveAll(s, k);
      assert (m - {k}).Keys == m.Keys - {k};
      forall t ensures t in m' <==> t in s' {
        assert t in s' <==> multiset(s')[t] > 0;
        assert t in s <==> multiset(s)[t] > 0;
      }
      SumCountsIsLength(m', s');
    }
  }

  /** The counts add up to the number of tokens. */
  lemma TermFrequencySum(tokens: seq<string>)
    ensures SumCounts(TermFrequency(tokens)) == |tokens|
  {
    TermFrequencyCounts(tokens);
    SumCountsIsLength(TermFrequency(tokens), tokens);
  }

  // ---------------------------------------------------------------------------------
  // Scoring one message against the query tokens. Each query token position counts,
  // so a repeated query token counts once per repetition.

  /** Sum of the message's counts of the query tokens, position by position. */
  function Score(queryTokens: seq<string>, tf: map<string, nat>): nat {
    if queryTokens == [] then 0
    else
      var t := queryTokens[|queryTokens| - 1];
      Score(queryTokens[..|queryTokens| - 1], tf) + (if t in tf then tf[t] else 0)
  }

  /** Number of query token positions whose token occurs in the message. */
  function Matched(queryTokens: seq<string>, tf: map<string, nat>): nat {
    if queryTokens == [] then 0
    else
      var t := queryTokens[|queryTokens| - 1];
      Matched(queryTokens[..|queryTokens| - 1], tf) + (if t in tf then 1 else 0)
  }

  /** Number of (query position, message token position) pairs holding equal tokens. */
  function Occurrences(queryTokens: seq<string>, messageTokens: seq<string>): nat {
    if queryTokens == [] then 0
    else
      Occurrences(queryTokens[..|queryTokens| - 1], messageTokens)
        + multiset(messageTokens)[queryTokens[|queryTokens| - 1]]
  }

  /** A message matches when some query token position holds one of its tokens; the
      number of matching positions is at most the number of query tokens, the score is
      at least that number, and the score counts every occurrence of every query token
      position in the message. */
  lemma {:induction false} ScoreFacts(queryTokens: seq<string>, messageTokens: seq<string>)
    ensures var tf := TermFrequency(messageTokens);
      && Matched(queryTokens, tf) <= |queryTokens|
      && (Matched(queryTokens, tf) > 0 <==>
            exists i :: 0 <= i < |queryTokens| && queryTokens[i] in messageTokens)
      && Score(queryTokens, tf) >= Matched(queryTokens, tf)
      && Score(queryTokens, tf) == Occurrences(queryTokens, messageTokens)
  {
    TermFrequencyCounts(messageTokens);
    if queryTokens != [] {
      var init := queryTokens[..|queryTokens| - 1];
      ScoreFacts(init, messageTokens);
      var t := queryTokens[|queryTokens| - 1];
      if t in messageTokens { assert multiset(messageTokens)[t] > 0; }
      else { assert multiset(messageTokens)[t] == 0; }
      assert forall i :: 0 <= i < |init| ==> init[i] == queryTokens[i];
    }
  }

  /** Over the rationals, dividing the integer key by the positive constant n * n (the
      source's float score) preserves its order. */
  lemma FloatKeyOrder(score1: nat, matched1: nat, score2: nat, matched2: nat, n: nat)
    requires n > 0
    ensures (score1 as real / n as real) * (matched1 as real / n as real)
              >= (score2 as real / n as real) * (matched2 as real / n as real)
            <==> score1 * matched1 >= score2 * matched2
  {
    var nn := (n * n) as real;
    assert (score1 as real / n as real) * (matched1 as real / n as real) == (score1 * matched1) as real / nn;
    assert (score2 as real / n as real) * (matched2 as real / n as real) == (score2 * matched2) as real / nn;
  }

  function MessageTokens(m: Message): seq<string> {
    Tokenize(Lower(m.text.GetOr("")))
  }

  /** A message is kept when one of its tokens is a query token. */
  ghost predicate Matches(m: Message, queryTokens: seq<string>) {
    exists i :: 0 <= i < |queryTokens| && queryTokens[i] in MessageTokens(m)
  }

  /** The integer stand-in for `score / n * (matched / n)`. */
  function KeyFrom(score: nat, matched: nat): int {
    score * matched
  }

  /** The integer ranking key of a message. */
  function Key(m: Message, queryTokens: seq<string>): int {
    var tf := TermFrequency(MessageTokens(m));
    KeyFrom(Score(queryTokens, tf), Matched(queryTokens, tf))
  }

  /** The (key, message) pairs of the matching messages, in message order. */
  function Scored(messages: seq<Message>, queryTokens: seq<string>): seq<(int, Message)> {
    if messages == [] then []
    else
      var prev := Scored(messages[..|messages| - 1], queryTokens);
      var m := messages[|messages| - 1];
      if Matched(queryTokens, TermFrequency(MessageTokens(m))) > 0
      then prev + [(Key(m, queryTokens), m)]
      else prev
  }

  /** Every scored entry is a matching message of the input, paired with its key, which
      is positive. */
  lemma {:induction false} ScoredSound(messages: seq<Message>, queryTokens: seq<string>)
    ensures forall e :: e in Scored(messages, queryTokens) ==>
      e.1 in messages && Matches(e.1, queryTokens) && e.0 == Key(e.1, queryTokens) && e.0 >= 1
  {
    if messages != [] {
      var init, m := messages[..|messages| - 1], messages[|messages| - 1];
      ScoredSound(init, queryTokens);
      ScoreFacts(queryTokens, MessageTokens(m));
      assert messages == init + [m];
      var tf := TermFrequency(MessageTokens(m));
      if Matched(queryTokens, tf) > 0 {
        MulPositive(Score(queryTokens, tf), Matched(queryTokens, tf));
      }
    }
  }

  lemma MulPositive(a: int, b: int)
    requires a >= 1 && b >= 1
    ensures a * b >= 1
  {
  }

  /** Every matching message of the input is scored. */
  lemma {:induction false} ScoredComplete(messages: seq<Message>, queryTokens: seq<string>)
    ensures forall m :: m in messages && Matches(m, queryTokens) ==>
      exists e :: e in Scored(messages, queryTokens) && e.1 == m
  {
    if messages != [] {
      var init, m := messages[..|messages| - 1], messages[|messages| - 1];
      ScoredComplete(init, queryTokens);
      ScoreFacts(queryTokens, MessageTokens(m));
      assert messages == init + [m];
      forall x | x in messages && Matches(x, queryTokens)
        ensures exists e :: e in Scored(messages, queryTokens) && e.1 == x
      {
        if x in init {
          var e :| e in Scored(init, queryTokens) && e.1 == x;
          assert e in Scored(messages, queryTokens);
        } else {
          var e := (Key(m, queryTokens), m);
          assert e in Scored(messages, queryTokens);
        }
      }
    }
  }

  /** A message as the filter keeps it: itself when it matches, nothing otherwise. */
  ghost function Kept(m: Message, queryTokens: seq<string>): seq<Message> {
    if Matches(m, queryTokens) then [m] else []
  }

  /** The matching messages of the input, in input order, duplicates kept. */
  ghost function MatchingMessages(messages: seq<Message>, queryTokens: seq<string>): seq<Message>
  {
    if messages == [] then []
    else Kept(messages[0], queryTokens) + MatchingMessages(messages[1..], queryTokens)
  }

  lemma {:induction false} MatchingMessagesSnoc(messages: seq<Message>, m: Message, queryTokens: seq<string>)
    ensures MatchingMessages(messages + [m], queryTokens)
      == MatchingMessages(messages, queryTokens) + Kept(m, queryTokens)
  {
    var t := messages + [m];
    if messages == [] {
      assert t == [m] && t[1..] == [];
    } else {
      assert t[0] == messages[0] && t[1..] == messages[1..] + [m];
      MatchingMessagesSnoc(messages[1..], m, queryTokens);
      calc {
        MatchingMessages(t, queryTokens);
        Kept(messages[0], queryTokens) + MatchingMessages(messages[1..] + [m], queryTokens);
        Kept(messages[0], queryTokens) + (MatchingMessages(messages[1..], queryTokens) + Kept(m, queryTokens));
        (Kept(messages[0], queryTokens) + MatchingMessages(messages[1..], queryTokens)) + Kept(m, queryTokens);
      }
    }
  }

  lemma ItemsOfSnoc(entries: seq<(int, Message)>, e: (int, Message))
    ensures ItemsOf(entries + [e]) == ItemsOf(entries) + [e.1]
  {
    assert forall i :: 0 <= i < |entries| ==> (entries + [e])[i] == entries[i];
  }

  /** The scoring pass keeps exactly the matching messages, in input order and with
      duplicate records counted separately. */
  lemma {:induction false} ScoredInOrder(messages: seq<Message>, queryTokens: seq<string>)
    ensures ItemsOf(Scored(messages, queryTokens)) == MatchingMessages(messages, queryTokens)
  {
    if messages != [] {
      var init, m := messages[..|messages| - 1], messages[|messages| - 1];
      assert messages == init + [m];
      ScoredInOrder(init, queryTokens);
      ScoreFacts(queryTokens, MessageTokens(m));
      MatchingMessagesSnoc(init, m, queryTokens);
      var prev := Scored(init, queryTokens);
      if Matched(queryTokens, TermFrequency(MessageTokens(m))) > 0 {
        ItemsOfSnoc(prev, (Key(m, queryTokens), m));
      }
    }
  }

  /** The scored list in stable descending key order. */
  function Ranking(messages: seq<Message>, queryTokens: seq<string>): seq<(int, Message)> {
    StableSort.SortDesc(Scored(messages, queryTokens))
  }

  // ---------------------------------------------------------------------------------
  // Python list slicing and floor division.

  /** A slice bound as Python normalises it: negative counts from the end, then clamped. */
  function PyIndex(i: int, len: nat): (r: nat)
    ensures r <= len
    ensures 0 <= i <= len ==> r == i
  {
    if i < 0 then (if i + len < 0 then 0 else i + len) else if i > len then len else i
  }

  /** `s[start:end]` in Python. */
  function PySlice<T>(s: seq<T>, start: int, end: int): seq<T> {
    var lo, hi := PyIndex(start, |s|), PyIndex(end, |s|);
    if lo < hi then s[lo..hi] else []
  }

  /** With non-negative bounds a Python slice is the ordinary subsequence between the
      bounds, each clamped to the length. */
  lemma PySliceNonNegative<T>(s: seq<T>, start: int, end: int)
    requires 0 <= start <= end
    ensures var lo := if start <= |s| then start else |s|;
            var hi := if end <= |s| then end else |s|;
            PySlice(s, start, end) == s[lo..hi]
  {
  }

  /** `a // b` in Python: the quotient rounded toward minus infinity. */
  function PyFloorDiv(a: int, b: int): (q: int)
    requires b != 0
    ensures b > 0 ==> q * b <= a < q * b + b
    ensures b < 0 ==> q * b >= a > q * b + b
  {
    if b > 0 then a / b else (-a) / (-b)
  }

  // ---------------------------------------------------------------------------------
  // The search.

  /** What a call of the back end does: return a dictionary or raise. */
  datatype SearchOutcome = Returned(reply: SearchPage) | Raised(exception: string)

  const NoDataNote := "No data loaded. Please call /load_data first."
  const ZeroDivision := "ZeroDivisionError"

  function ItemsOf(entries: seq<(int, Message)>): (r: seq<Message>)
    ensures |r| == |entries|
    ensures forall i :: 0 <= i < |entries| ==> r[i] == entries[i].1
  {
    seq(|entries|, i requires 0 <= i < |entries| => entries[i].1)
  }

  /** The term-frequency search as a function of its arguments. */
  function SearchResult(messages: seq<Message>, query: string, page: int, perPage: int): (r: SearchOutcome)
    ensures r.Raised? <==> messages != [] && Tokenize(query) != [] && perPage == 0
    ensures r.Returned? ==> r.reply.page == page && r.reply.perPage == perPage
    ensures messages == [] ==>
      r == Returned(SearchPage(0, [], page, perPage, None, Some(NoDataNote)))
    ensures messages != [] && Tokenize(query) == [] ==>
      r == Returned(SearchPage(0, [], page, perPage, None, None))
  {
    if messages == [] then Returned(SearchPage(0, [], page, perPage, None, Some(NoDataNote)))
    else
      var queryTokens := Tokenize(query);
      if queryTokens == [] then Returned(SearchPage(0, [], page, perPage, None, None))
      else
        var ranked := Ranking(messages, queryTokens);
        var start := (page - 1) * perPage;
        var items := ItemsOf(PySlice(ranked, start, start + perPage));
        if perPage == 0 then Raised(ZeroDivision)
        else
          Returned(SearchPage(|ranked|, items, page, perPage,
                              Some(PyFloorDiv(|ranked| + perPage - 1, perPage)), None))
  }

  /** Scores one message: the inner loop over the query tokens. */
  method ScoreMessage(queryTokens: seq<string>, messageTf: map<string, nat>)
    returns (score: nat, matched: nat)
    ensures score == Score(queryTokens, messageTf)
    ensures matched == Matched(queryTokens, messageTf)
  {
    score, matched := 0, 0;
    var j := 0;
    while j < |queryTokens|
      invariant 0 <= j <= |queryTokens|
      invariant score == Score(queryTokens[..j], messageTf)
      invariant matched == Matched(queryTokens[..j], messageTf)
    {
      var token := queryTokens[j];
      assert queryTokens[..j + 1][..j] == queryTokens[..j];
      if token in messageTf {
        score := score + messageTf[token];
        matched := matched + 1;
      }
      j := j + 1;
    }
    assert queryTokens[..j] == queryTokens;
  }

  /** The scoring pass: the outer loop over the messages, keeping the matching ones with
      their keys in message order. */
  method ScoreMessages(messagesData: seq<Message>, queryTokens: seq<string>)
    returns (scored: seq<(int, Message)>)
    ensures scored == Scored(messagesData, queryTokens)
  {
    scored := [];
    var i := 0;
    while i < |messagesData|
      invariant 0 <= i <= |messagesData|
      invariant scored == Scored(messagesData[..i], queryTokens)
    {
      var message := messagesData[i];
      var messageText := Lower(message.text.GetOr(""));
      var messageTf := TermFrequency(Tokenize(messageText));
      var score, matched := ScoreMessage(queryTokens, messageTf);
      if matched > 0 {
        scored := scored + [(KeyFrom(score, matched), message)];
      }
      assert messagesData[..i + 1][..i] == messagesData[..i];
      i := i + 1;
    }
    assert messagesData[..i] == messagesData;
  }

  /** The search as the source runs it: score every message, sort stably by descending
      key, cut out one page. */
  method Search(messagesData: seq<Message>, query: string, page: int, perPage: int)
    returns (out: SearchOutcome)
    ensures out == SearchResult(messagesData, query, page, perPage)
  {
    if messagesData == [] {
      out := Returned(SearchPage(0, [], page, perPage, None, Some(NoDataNote)));
    } else if Tokenize(query) == [] {
      out := Returned(SearchPage(0, [], page, perPage, None, None));
    } else {
      out := RankAndPage(messagesData, query, page, perPage);
    }
  }

  /** With data and query tokens the search returns the page's slice of the ranking, or
      fails on a zero page size. */
  lemma SearchRanked(messages: seq<Message>, query: string, page: int, perPage: int)
    requires messages != [] && Tokenize(query) != []
    ensures var ranked := Ranking(messages, Tokenize(query));
      var start := (page - 1) * perPage;
      SearchResult(messages, query, page, perPage)
        == if perPage == 0 then Raised(ZeroDivision)
           else Returned(SearchPage(|ranked|, ItemsOf(PySlice(ranked, start, start + perPage)), page, perPage,
                                    Some(PyFloorDiv(|ranked| + perPage - 1, perPage)), None))
  {
  }

  /** The part of `search` after the two early returns: score, sort, slice, count. */
  method RankAndPage(messagesData: seq<Message>, query: string, page: int, perPage: int)
    returns (out: SearchOutcome)
    requires messagesData != [] && Tokenize(query) != []
    ensures out == SearchResult(messagesData, query, page, perPage)
  {
    var queryTokens := Tokenize(query);
    var scored := ScoreMessages(messagesData, queryTokens);
    scored := StableSort.SortDesc(scored);
    var total := |scored|;
    var start := (page - 1) * perPage;
    var end := start + perPage;
    var items := ItemsOf(PySlice(scored, start, end));
    assert scored == Ranking(messagesData, queryTokens);
    SearchRanked(messagesData, query, page, perPage);
    if perPage == 0 {
      out := Raised(ZeroDivision);
    } else {
      out := Returned(SearchPage(total, items, page, perPage,
                                 Some(PyFloorDiv(total + perPage - 1, perPage)), None));
    }
  }
}

/** Properties of the term-frequency search: paging, ranking and the page count. */
module TermFrequencyProperties {
  import opened Wrappers
  import opened Records
  import opened TermFrequency
  import StableSort

  lemma MulMonotone(a: int, b: int, c: int)
    requires a <= b && c >= 0
    ensures a * c <= b * c
  {
  }

  /** `(total + per_page - 1) // per_page` is the ceiling of total / per_page: the
      smallest page count whose pages hold all `total` results. */
  lemma TotalPagesIsCeiling(total: nat, perPage: int)
    requires perPage >= 1
    ensures var pages := PyFloorDiv(total + perPage - 1, perPage);
      pages >= 0 && pages * perPage >= total && (pages - 1) * perPage < total
  {
    var pages := PyFloorDiv(total + perPage - 1, perPage);
    assert pages * perPage <= total + perPage - 1 < pages * perPage + perPage;
    assert (pages - 1) * perPage == pages * perPage - perPage;
    if pages < 0 {
      MulMonotone(pages + 1, 0, perPage);
    }
  }

  /** There is more than one page exactly when the matches do not fit on one. */
  lemma MoreThanOnePage(total: nat, perPage: int)
    requires perPage >= 1
    ensures PyFloorDiv(total + perPage - 1, perPage) > 1 <==> total > perPage
  {
    var pages := PyFloorDiv(total + perPage - 1, perPage);
    TotalPagesIsCeiling(total, perPage);
    if pages >= 2 {
      MulMonotone(1, pages - 1, perPage);
    } else {
      MulMonotone(pages, 1, perPage);
    }
  }

  /** The ranking sorts the scored messages by descending key, keeps exactly the same
      entries, and keeps the message order among entries of equal key. */
  lemma RankingOrder(messages: seq<Message>, queryTokens: seq<string>)
    ensures StableSort.SortedDesc(Ranking(messages, queryTokens))
    ensures multiset(Ranking(messages, queryTokens)) == multiset(Scored(messages, queryTokens))
    ensures forall k :: StableSort.WithScore(Ranking(messages, queryTokens), k)
                         == StableSort.WithScore(Scored(messages, queryTokens), k)
  {
    StableSort.SortDescCorrect(Scored(messages, queryTokens));
  }

  /** A Python slice is always a contiguous piece of the sequence. */
  lemma PySliceIsInfix<T>(s: seq<T>, start: int, end: int)
    ensures var lo, hi := PyIndex(start, |s|), PyIndex(end, |s|);
      PySlice(s, start, end) == s[lo..if lo < hi then hi else lo]
  {
  }

  /** A slice of a descending sequence is descending and holds entries of the sequence. */
  lemma SliceOfSorted<T>(s: seq<(int, T)>, start: int, end: int)
    requires StableSort.SortedDesc(s)
    ensures StableSort.SortedDesc(PySlice(s, start, end))
    ensures forall e :: e in PySlice(s, start, end) ==> e in s
  {
    PySliceIsInfix(s, start, end);
  }

  /** With a valid page and page size, the reply counts every matching message, holds the
      page's part of the ranking (at most `perPage` records) and the page count. */
  lemma SearchPaging(messages: seq<Message>, query: string, page: int, perPage: int)
    requires messages != [] && Tokenize(query) != []
    requires page >= 1 && perPage >= 1
    ensures var ranked := Ranking(messages, Tokenize(query));
      var total := |ranked|;
      var start := (page - 1) * perPage;
      var lo := if start <= total then start else total;
      var hi := if start + perPage <= total then start + perPage else total;
      var r := SearchResult(messages, query, page, perPage);
      && r.Returned?
      && r.reply.total == total
      && 0 <= lo <= hi && hi - lo <= perPage
      && r.reply.items == ItemsOf(ranked[lo..hi])
      && |r.reply.items| <= perPage
      && r.reply.totalPages == Some(PyFloorDiv(total + perPage - 1, perPage))
      && r.reply.note == None
  {
    var ranked := Ranking(messages, Tokenize(query));
    var start := (page - 1) * perPage;
    MulMonotone(0, page - 1, perPage);
    SearchRanked(messages, query, page, perPage);
    PySliceNonNegative(ranked, start, start + perPage);
  }

  /** Every record on any page is one of the input messages, unchanged, and matches the
      query; the records of a page are in non-increasing key order. */
  lemma SearchItemsRanked(messages: seq<Message>, query: string, page: int, perPage: int)
    requires SearchResult(messages, query, page, perPage).Returned?
    ensures var items := SearchResult(messages, query, page, perPage).reply.items;
      && (forall i :: 0 <= i < |items| ==>
            items[i] in messages && Matches(items[i], Tokenize(query)))
      && (forall i, j :: 0 <= i < j < |items| ==>
            Key(items[i], Tokenize(query)) >= Key(items[j], Tokenize(query)))
  {
    if messages != [] && Tokenize(query) != [] {
      var qt := Tokenize(query);
      var ranked := Ranking(messages, qt);
      var start := (page - 1) * perPage;
      var slice := PySlice(ranked, start, start + perPage);
      var items := SearchResult(messages, query, page, perPage).reply.items;
      assert items == ItemsOf(slice) by {
        SearchRanked(messages, query, page, perPage);
      }
      assert StableSort.SortedDesc(slice) && forall e :: e in slice ==> e in Scored(messages, qt) by {
        RankingOrder(messages, qt);
        SliceOfSorted(ranked, start, start + perPage);
        forall e | e in slice ensures e in Scored(messages, qt) {
          assert e in multiset(ranked);
        }
      }
      ScoredSound(messages, qt);
      forall i | 0 <= i < |items|
        ensures items[i] in messages && Matches(items[i], qt) && Key(items[i], qt) == slice[i].0
      {
        assert slice[i] in slice;
      }
      forall i, j | 0 <= i < j < |items| ensures Key(items[i], qt) >= Key(items[j], qt) {
        assert slice[i].0 >= slice[j].0;
      }
    }
  }

  lemma DivMod(j: nat, d: int)
    requires d >= 1
    ensures j / d >= 0 && 0 <= j % d < d && j == (j / d) * d + j % d
  {
  }

  /** Record `m` of a page is the result at rank `(page - 1) * perPage + m`. */
  lemma PageItem(messages: seq<Message>, query: string, page: int, perPage: int, m: nat, rank: nat)
    requires messages != [] && Tokenize(query) != [] && page >= 1 && m < perPage
    requires rank == (page - 1) * perPage + m < |Ranking(messages, Tokenize(query))|
    ensures var r := SearchResult(messages, query, page, perPage);
      && r.Returned?
      && m < |r.reply.items|
      && r.reply.items[m] == Ranking(messages, Tokenize(query))[rank].1
  {
    var ranked := Ranking(messages, Tokenize(query));
    var start := (page - 1) * perPage;
    var slice := PySlice(ranked, start, start + perPage);
    assert SearchResult(messages, query, page, perPage).Returned?
        && SearchResult(messages, query, page, perPage).reply.items == ItemsOf(slice) by {
      SearchRanked(messages, query, page, perPage);
    }
    assert m < |slice| && slice[m] == ranked[rank] by {
      MulMonotone(0, page - 1, perPage);
      PySliceNonNegative(ranked, start, start + perPage);
      var hi := if start + perPage <= |ranked| then start + perPage else |ranked|;
      assert ranked[start..hi][m] == ranked[rank];
    }
  }

  /** Paging covers the ranking: the result at rank `j` (from 0) is record `j % perPage`
      of page `j / perPage + 1`. */
  lemma PageCoverage(messages: seq<Message>, query: string, perPage: int, j: nat)
    requires messages != [] && Tokenize(query) != [] && perPage >= 1
    requires j < |Ranking(messages, Tokenize(query))|
    ensures var r := SearchResult(messages, query, j / perPage + 1, perPage);
      && r.Returned?
      && j % perPage < |r.reply.items|
      && r.reply.items[j % perPage] == Ranking(messages, Tokenize(query))[j].1
  {
    var q, m := j / perPage, j % perPage;
    DivMod(j, perPage);
    assert (q + 1 - 1) * perPage == q * perPage;
    PageItem(messages, query, q + 1, perPage, m, j);
  }

  /** The reported total is the number of matching input messages, duplicate records
      included. */
  lemma TotalIsMatchCount(messages: seq<Message>, query: string, page: int, perPage: int)
    requires messages != [] && Tokenize(query) != [] && perPage != 0
    ensures SearchResult(messages, query, page, perPage).Returned?
    ensures SearchResult(messages, query, page, perPage).reply.total
      == |MatchingMessages(messages, Tokenize(query))|
  {
    SearchRanked(messages, query, page, perPage);
    RankingOrder(messages, Tokenize(query));
    ScoredInOrder(messages, Tokenize(query));
    assert |Ranking(messages, Tokenize(query))| == |Scored(messages, Tokenize(query))| by {
      assert |multiset(Ranking(messages, Tokenize(query)))| == |multiset(Scored(messages, Tokenize(query)))|;
    }
  }

  /** Page `page` starts inside the results exactly when its number is at most the page
      count. */
  lemma PageStartIffInRange(total: nat, page: int, perPage: int)
    requires page >= 1 && perPage >= 1
    ensures (page - 1) * perPage < total <==> page <= PyFloorDiv(total + perPage - 1, perPage)
  {
    var pages := PyFloorDiv(total + perPage - 1, perPage);
    TotalPagesIsCeiling(total, perPage);
    if page <= pages {
      MulMonotone(page - 1, pages - 1, perPage);
    } else {
      MulMonotone(pages, page - 1, perPage);
    }
  }

  /** A page has records exactly when its number is at most the page count. */
  lemma PageNonEmptyIffInRange(messages: seq<Message>, query: string, page: int, perPage: int)
    requires messages != [] && Tokenize(query) != []
    requires page >= 1 && perPage >= 1
    ensures var r := SearchResult(messages, query, page, perPage);
      r.Returned? && (r.reply.items != [] <==> page <= r.reply.totalPages.value)
  {
    var total := |Ranking(messages, Tokenize(query))|;
    var start := (page - 1) * perPage;
    var r := SearchResult(messages, query, page, perPage);
    assert r.Returned? && r.reply.totalPages == Some(PyFloorDiv(total + perPage - 1, perPage))
        && (r.reply.items != [] <==> start < total) by {
      SearchPaging(messages, query, page, perPage);
    }
    PageStartIffInRange(total, page, perPage);
  }
}
