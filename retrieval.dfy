/**
  The answering logic of `execute_workflow`: choosing the most recent document,
  keyword retrieval of sentences, the context built from them and the reply
  (the remote chat model's, or one of three fixed templates).
 */
module Retrieval {
  import opened Wrappers
  import opened PyStr

  const NO_DOCUMENTS_MESSAGE := "No documents have been uploaded yet. Please upload a PDF document first to enable knowledge-based responses."
  const CONTEXT_SENTENCES: nat := 3
  const FALLBACK_CONTEXT_LENGTH: nat := 500
  const CONTEXT_USED_LENGTH: nat := 200

  /** Which path produced a reply or an embedding: the `"method"` field, `"openai"` or `"mock"`. */
  datatype Provider = OpenAI | Mock

  datatype Reply =
    | NoDocuments(response: string)
    | Answered(response: string, contextUsed: string, provider: Provider)

  // ---------------------------------------------------------------------------
  // Most recent document

  /**
    Index of the latest upload time, as Python's `max(keys, key=...)` picks it:
    the first key, in insertion order, whose time is maximal.
   */
  function LatestIndex(times: seq<int>): (j: nat)
    requires |times| > 0
    ensures j < |times|
    ensures forall i :: 0 <= i < |times| ==> times[i] <= times[j]
    ensures forall i :: 0 <= i < j ==> times[i] < times[j]
  {
    if |times| == 1 then 0
    else
      var m := LatestIndex(times[..|times| - 1]);
      if times[|times| - 1] > times[m] then |times| - 1 else m
  }

  // ---------------------------------------------------------------------------
  // Relevant sentences

  /** `any(word in s for word in words)`, scanning the words left to right. */
  predicate AnyIn(s: string, words: seq<string>)
    ensures AnyIn(s, words) <==> exists k :: 0 <= k < |words| && Contains(s, words[k])
  {
    |words| > 0 && (Contains(s, words[0]) || AnyIn(s, words[1..]))
  }

  /** The filter of the comprehension: `any(word in s.lower() for word in words)`. */
  predicate Mentions(sentence: string, words: seq<string>)
    ensures Mentions(sentence, words) <==> exists k :: 0 <= k < |words| && Contains(ToLower(sentence), words[k])
  {
    AnyIn(ToLower(sentence), words)
  }

  /** `[s.strip() for s in sentences if any(word in s.lower() for word in words)]` */
  function Relevant(sentences: seq<string>, words: seq<string>): (r: seq<string>)
    ensures |r| <= |sentences|
    ensures r == [] <==> forall j :: 0 <= j < |sentences| ==> !Mentions(sentences[j], words)
  {
    ComprehensionEmpty(sentences, s => Mentions(s, words), Strip);
    Comprehension(sentences, s => Mentions(s, words), Strip)
  }

  /** The lower-cased document text split on '.'. */
  function Sentences(text: string): (ps: seq<string>)
    ensures |ps| >= 1
    ensures Join(".", ps) == ToLower(text)
    ensures forall i :: 0 <= i < |ps| ==> '.' !in ps[i] && IsLowered(ps[i])
  {
    JoinSplit(ToLower(text), '.');
    SplitKeepsLowered(ToLower(text), '.');
    Split(ToLower(text), '.')
  }

  /** The whitespace-separated words of the lower-cased query. */
  function QueryWords(query: string): (ws: seq<string>)
    ensures forall i :: 0 <= i < |ws| ==> IsToken(ws[i]) && IsLowered(ws[i])
    ensures AllSpace(query) ==> ws == []
  {
    WordsKeepLowered(ToLower(query));
    if AllSpace(query) then WordsOfBlank(ToLower(query)); Words(ToLower(query))
    else Words(ToLower(query))
  }

  /** The relevant sentences of a document for a query: lower-cased, stripped and free of '.'. */
  function RelevantSentences(text: string, query: string): (rel: seq<string>)
    ensures |rel| <= |Sentences(text)|
    ensures forall i :: 0 <= i < |rel| ==> IsLowered(rel[i]) && '.' !in rel[i] && Strip(rel[i]) == rel[i]
  {
    RelevantShape(Sentences(text), QueryWords(query));
    Relevant(Sentences(text), QueryWords(query))
  }

  /** Stripping a lower-cased, dot-free sentence yields a lower-cased, dot-free, stripped sentence. */
  lemma RelevantShape(ps: seq<string>, ws: seq<string>)
    requires forall i :: 0 <= i < |ps| ==> '.' !in ps[i] && IsLowered(ps[i])
    ensures forall i :: 0 <= i < |Relevant(ps, ws)| ==>
      var x := Relevant(ps, ws)[i];
      IsLowered(x) && '.' !in x && Strip(x) == x
  {
    var rel := Relevant(ps, ws);
    var idx := RelevantIndices(ps, ws);
    forall i | 0 <= i < |rel| ensures IsLowered(rel[i]) && '.' !in rel[i] && Strip(rel[i]) == rel[i] {
      var p := ps[idx[i]];
      StripKeepsLowered(p);
      StripKeepsAbsent(p, '.');
      StripStripped(p);
    }
  }

  /** The relevant sentences are exactly the stripped sentences that mention a query word, in their original order. */
  lemma RelevantIndices(ps: seq<string>, ws: seq<string>) returns (idx: seq<nat>)
    ensures |idx| == |Relevant(ps, ws)|
    ensures forall i :: 0 <= i < |idx| ==>
      idx[i] < |ps| && Mentions(ps[idx[i]], ws) && Relevant(ps, ws)[i] == Strip(ps[idx[i]])
    ensures forall i, j :: 0 <= i < j < |idx| ==> idx[i] < idx[j]
    ensures forall j :: 0 <= j < |ps| && Mentions(ps[j], ws) ==> j in idx
  {
    idx := ComprehensionIndices(ps, s => Mentions(s, ws), Strip);
  }

  /** Every relevant sentence of a document contains one of the query's words. */
  lemma RelevantMentionQuery(text: string, query: string)
    ensures forall i :: 0 <= i < |RelevantSentences(text, query)| ==>
      exists k :: 0 <= k < |QueryWords(query)| && Contains(RelevantSentences(text, query)[i], QueryWords(query)[k])
  {
    var ps, ws := Sentences(text), QueryWords(query);
    var rel := RelevantSentences(text, query);
    var idx := RelevantIndices(ps, ws);
    forall i | 0 <= i < |rel|
      ensures exists k :: 0 <= k < |ws| && Contains(rel[i], ws[k])
    {
      var p := ps[idx[i]];
      var k :| 0 <= k < |ws| && Contains(ToLower(p), ws[k]);
      StripKeepsToken(p, ws[k]);
    }
  }

  /** An empty or whitespace-only query finds no relevant sentence. */
  lemma BlankQueryFindsNothing(text: string, query: string)
    requires AllSpace(query)
    ensures RelevantSentences(text, query) == []
  {
  }

  // ---------------------------------------------------------------------------
  // Context

  function StripAll(ps: seq<string>): (r: seq<string>)
    ensures |r| == |ps|
    ensures forall i :: 0 <= i < |ps| ==> r[i] == Strip(ps[i])
  {
    seq(|ps|, i requires 0 <= i < |ps| => Strip(ps[i]))
  }

  /**
    `'. '.join(relevant[:3])` when some sentence is relevant, otherwise the
    first 500 characters of the original (not lower-cased) text. In the first
    case the context falls apart again into the sentences it was built from:
    split on '.', it gives the first sentence and each later one after a space.
   */
  function Context(text: string, query: string): (c: string)
    ensures RelevantSentences(text, query) == [] ==>
      c <= text && |c| == if |text| <= FALLBACK_CONTEXT_LENGTH then |text| else FALLBACK_CONTEXT_LENGTH
    ensures RelevantSentences(text, query) != [] ==>
      var xs := Take(RelevantSentences(text, query), CONTEXT_SENTENCES);
      Split(c, '.') == Spaced(xs) && StripAll(Split(c, '.')) == xs
  {
    var rel := RelevantSentences(text, query);
    if |rel| > 0 then
      var xs := Take(rel, CONTEXT_SENTENCES);
      assert forall i :: 0 <= i < |xs| ==> xs[i] == rel[i];
      JoinAfterSpace(xs);
      Join(". ", xs)
    else Take(text, FALLBACK_CONTEXT_LENGTH)
  }

  /** The pieces `'. '.join(xs)` splits into on '.': the first sentence, then each later one after a space. */
  function Spaced(xs: seq<string>): (ps: seq<string>)
    requires |xs| > 0
    ensures |ps| == |xs| && ps[0] == xs[0]
    ensures forall i :: 1 <= i < |xs| ==> ps[i] == " " + xs[i]
  {
    [xs[0]] + seq(|xs| - 1, i requires 0 <= i < |xs| - 1 => " " + xs[i + 1])
  }

  /** `'. '.join(xs)` splits on '.' into the `Spaced` pieces, which strip back to the stripped, dot-free sentences. */
  lemma JoinAfterSpace(xs: seq<string>)
    requires |xs| > 0
    requires forall i :: 0 <= i < |xs| ==> '.' !in xs[i] && Strip(xs[i]) == xs[i]
    ensures Split(Join(". ", xs), '.') == Spaced(xs)
    ensures StripAll(Split(Join(". ", xs), '.')) == xs
  {
    var pieces := Spaced(xs);
    JoinSpaced(xs);
    SpacedDotFree(xs);
    SplitJoin(pieces, '.');
    StripSpaced(xs);
  }

  lemma SpacedDotFree(xs: seq<string>)
    requires |xs| > 0
    requires forall i :: 0 <= i < |xs| ==> '.' !in xs[i]
    ensures forall i :: 0 <= i < |xs| ==> '.' !in Spaced(xs)[i]
  {
    forall i | 0 <= i < |xs| ensures '.' !in Spaced(xs)[i] {
      if i > 0 {
        assert Spaced(xs)[i] == " " + xs[i];
      }
    }
  }

  lemma StripSpaced(xs: seq<string>)
    requires |xs| > 0
    requires forall i :: 0 <= i < |xs| ==> Strip(xs[i]) == xs[i]
    ensures StripAll(Spaced(xs)) == xs
  {
    var pieces := Spaced(xs);
    forall i | 0 <= i < |xs| ensures StripAll(pieces)[i] == xs[i] {
      if i > 0 {
        StripAfterSpace(xs[i]);
      }
    }
  }

  lemma {:induction false} JoinSpaced(xs: seq<string>)
    requires |xs| > 0
    ensures Join(". ", xs) == Join(".", Spaced(xs))
  {
    if |xs| > 1 {
      var tail := Spaced(xs[1..]);
      var rest := tail[1..];
      JoinSpaced(xs[1..]);
      assert tail == [xs[1]] + rest;
      assert Spaced(xs) == [xs[0]] + ([" " + xs[1]] + rest);
      JoinCons(".", xs[0], [" " + xs[1]] + rest);
      JoinPrepend(".", " ", xs[1], rest);
      JoinCons(". ", xs[0], xs[1..]);
    }
  }

  /** Text put in front of the first piece ends up in front of the join. */
  lemma JoinPrepend(sep: string, p: string, x: string, rest: seq<string>)
    ensures Join(sep, [p + x] + rest) == p + Join(sep, [x] + rest)
  {
    if |rest| > 0 {
      JoinCons(sep, p + x, rest);
      JoinCons(sep, x, rest);
    }
  }

  /** Stripping cannot introduce a character. */
  lemma StripKeepsAbsent(s: string, c: char)
    requires c !in s
    ensures c !in Strip(s)
  {
    var i, m := StripSlice(s);
    assert forall k :: 0 <= k < m ==> Strip(s)[k] == s[i + k];
  }

  /** Stripping twice is stripping once. */
  lemma StripStripped(s: string)
    ensures Strip(Strip(s)) == Strip(s)
  {
    var r := Strip(s);
    if |r| > 0 {
      assert LeadingSpaces(r) == 0;
      assert ContentEnd(r) == |r|;
      assert r[0..] == r;
      assert r[..|r|] == r;
    }
  }

  lemma StripAfterSpace(x: string)
    requires Strip(x) == x
    ensures Strip(" " + x) == x
  {
    var s := " " + x;
    assert s[1..] == x;
    if |x| > 0 {
      assert !IsSpace(x[0]);
      assert LeadingSpaces(x) == 0;
      assert LeadingSpaces(s) == 1;
      assert ContentEnd(x) == |x|;
    } else {
      assert LeadingSpaces(s) == 1;
    }
  }

  // ---------------------------------------------------------------------------
  // Replies

  /**
    The three fixed replies of the mock path. Each quotes the query and the
    context's first 200 characters; the first also names the document.
   */
  function MockResponses(filename: string, query: string, context: string): (rs: seq<string>)
    ensures |rs| == 3
    ensures forall k :: 0 <= k < 3 ==> Contains(rs[k], query) && Contains(rs[k], Take(context, CONTEXT_USED_LENGTH))
    ensures Contains(rs[0], filename)
  {
    var excerpt := Take(context, CONTEXT_USED_LENGTH);
    var a0, b0, c0 := "Based on the document '", "', I can see that your query about '", "' relates to the following information: ";
    var a1 := "According to the uploaded document, here's what I found regarding '";
    var a2 := "From the knowledge base, I can provide this information about '";
    FillsThree(a0, filename, b0, query, c0, excerpt, "...");
    FillsBoth(a1, query, "': ", excerpt, "...");
    FillsBoth(a2, query, "': ", excerpt, "...");
    [a0 + filename + b0 + query + c0 + excerpt + "...", a1 + query + "': " + excerpt + "...",
     a2 + query + "': " + excerpt + "..."]
  }

  /** Both values filled into a template `a{v}b{w}c` occur in the result. */
  lemma FillsBoth(a: string, v: string, b: string, w: string, c: string)
    ensures Contains(a + v + b + w + c, v) && Contains(a + v + b + w + c, w)
  {
    assert a + v + b + w + c == a + v + (b + w + c);
    ContainsMiddle(a, v, b + w + c);
    ContainsMiddle(a + v + b, w, c);
  }

  /** All three values filled into a template `a{u}b{v}c{w}d` occur in the result. */
  lemma FillsThree(a: string, u: string, b: string, v: string, c: string, w: string, d: string)
    ensures var s := a + u + b + v + c + w + d;
      Contains(s, u) && Contains(s, v) && Contains(s, w)
  {
    assert a + u + b + v + c + w + d == a + u + (b + v + c + w + d);
    ContainsMiddle(a, u, b + v + c + w + d);
    FillsBoth(a + u + b, v, c, w, d);
  }

  /**
    The reply for a document: the remote chat model's answer when `chat` holds one
    (the key is set and the call succeeded), otherwise template `pick`, the draw of
    `random.choice`. Both carry the context truncated to 200 characters.
   */
  function Answer(filename: string, text: string, query: string, chat: Option<string>, pick: nat): (r: Reply)
    requires pick < 3
    ensures r.Answered?
    ensures r.contextUsed == Truncate(Context(text, query), CONTEXT_USED_LENGTH)
    ensures chat.Some? ==> r.provider == OpenAI && r.response == chat.value
    ensures chat.None? ==> r.provider == Mock && r.response == MockResponses(filename, query, Context(text, query))[pick]
    ensures chat.None? ==> Contains(r.response, query) && Contains(r.response, Take(Context(text, query), CONTEXT_USED_LENGTH))
  {
    var context := Context(text, query);
    var used := Truncate(context, CONTEXT_USED_LENGTH);
    match chat
    case Some(reply) => Answered(reply, used, OpenAI)
    case None =>
      Answered(MockResponses(filename, query, context)[pick], used, Mock)
  }
}
