/**
 * The document-drafting route: the request body is the cache key, a response cache bounded to 50
 * entries that expire after five minutes sits in front of the drafting agent, and the agent's output
 * is stripped of a markdown fence at either end before it is stored and returned.
 */
module DraftRoute {
  import opened Outcomes
  import opened Js
  import opened JsObject

  // ---------------------------------------------------------------------------------------------
  // Output clean-up: `html.replace(/^`{3,}(html)?\s*|\s*`{3,}$/g, '').trim()`
  // ---------------------------------------------------------------------------------------------

  predicate AllTicks(s: string) {
    forall i :: 0 <= i < |s| ==> s[i] == '`'
  }

  /** Length of the longest all-backtick prefix. */
  function LeadingTicks(s: string): (n: nat)
    ensures n <= |s| && AllTicks(s[..n])
    ensures n < |s| ==> s[n] != '`'
  {
    if s == [] || s[0] != '`' then 0 else 1 + LeadingTicks(s[1..])
  }

  /** Length of the longest all-backtick suffix. */
  function TrailingTicks(s: string): (n: nat)
    ensures n <= |s| && AllTicks(s[|s| - n..])
    ensures n < |s| ==> s[|s| - n - 1] != '`'
  {
    if s == [] || s[|s| - 1] != '`' then 0 else 1 + TrailingTicks(s[..|s| - 1])
  }

  /**
   * Length of the match of the first alternative, `^`{3,}(html)?\s*`, which can only match at
   * index 0; 0 when it does not match. Each quantifier is greedy and the pattern cannot fail after
   * its third backtick, so the match takes every leading backtick, then `html` if it follows, then
   * every white-space character after that.
   */
  function OpeningFence(s: string): (n: nat)
    ensures n <= |s|
    ensures n > 0 <==> |s| >= 3 && s[..3] == "```"
  {
    var ticks := LeadingTicks(s);
    LeadingTicksAtLeast(s, if |s| >= 3 then 3 else 0);
    if ticks < 3 then 0
    else
      assert s[..3] == s[..ticks][..3];
      var tagged := if |s| - ticks >= 4 && s[ticks..ticks + 4] == "html" then ticks + 4 else ticks;
      tagged + LeadingSpaces(s[tagged..])
  }

  /** No backtick prefix is longer than the one LeadingTicks measures. */
  lemma {:induction false} LeadingTicksAtLeast(s: string, q: nat)
    requires q <= |s|
    ensures AllTicks(s[..q]) ==> q <= LeadingTicks(s)
  {
    if q > 0 && AllTicks(s[..q]) {
      assert s[..q][0] == s[0];
      assert s[1..][..q - 1] == s[1..q];
      LeadingTicksAtLeast(s[1..], q - 1);
    }
  }

  /** `t` is matched whole by `\s*`{3,}`: `k` white-space characters, then three or more backticks. */
  ghost predicate FenceSplit(t: string, k: int) {
    0 <= k <= |t| - 3 && AllSpace(t[..k]) && AllTicks(t[k..])
  }

  /** `t` matches `\s*`{3,}$` from its first character to its end. */
  ghost predicate IsClosingFence(t: string) {
    exists k :: FenceSplit(t, k)
  }

  /**
   * Length of the match of the second alternative, `\s*`{3,}$`, at the leftmost index where it
   * matches; 0 when it matches nowhere.
   */
  function ClosingFence(t: string): (n: nat)
    ensures n <= |t|
  {
    var ticks := TrailingTicks(t);
    if ticks < 3 then 0 else ticks + TrailingSpaces(t[..|t| - ticks])
  }

  /** No backtick suffix is longer than the one TrailingTicks measures. */
  lemma {:induction false} TrailingTicksMax(t: string, q: nat)
    requires q <= |t| && AllTicks(t[q..])
    ensures |t| - q <= TrailingTicks(t)
  {
    if q < |t| {
      assert t[q..][|t| - 1 - q] == t[|t| - 1];
      assert t[..|t| - 1][q..] == t[q..|t| - 1];
      TrailingTicksMax(t[..|t| - 1], q);
    }
  }

  /**
   * The second alternative's match found by a left-to-right scan: it starts at the first index
   * from which the rest of `t` is white space followed by three or more backticks.
   */
  lemma ClosingFenceLeftmost(t: string)
    ensures ClosingFence(t) > 0 ==> IsClosingFence(t[|t| - ClosingFence(t)..])
    ensures forall p :: 0 <= p <= |t| && IsClosingFence(t[p..]) ==> |t| - ClosingFence(t) <= p
  {
    var n := ClosingFence(t);
    var ticks := TrailingTicks(t);
    if n > 0 {
      var w := n - ticks;
      var u := t[|t| - n..];
      assert u[..w] == t[..|t| - ticks][|t| - ticks - w..];
      assert u[w..] == t[|t| - ticks..];
      assert FenceSplit(u, w);
    }
    forall p | 0 <= p <= |t| && IsClosingFence(t[p..]) ensures |t| - n <= p {
      var k :| FenceSplit(t[p..], k);
      FenceStartBound(t, p, k);
    }
  }

  /** A fence match starting at `p` starts no earlier than the one ClosingFence picks. */
  lemma FenceStartBound(t: string, p: nat, k: int)
    requires p <= |t| && FenceSplit(t[p..], k)
    ensures |t| - ClosingFence(t) <= p
  {
    FenceTicksCounted(t, p, k);
    var ticks := TrailingTicks(t);
    assert ClosingFence(t) == ticks + TrailingSpaces(t[..|t| - ticks]);
    if p <= |t| - ticks {
      FenceSpacesCounted(t, p, k, ticks);
    }
  }

  /** The backticks of a fence match at `p` are all counted by TrailingTicks. */
  lemma FenceTicksCounted(t: string, p: nat, k: int)
    requires p <= |t| && FenceSplit(t[p..], k)
    ensures TrailingTicks(t) >= |t| - (p + k) >= 3
  {
    assert t[p + k..] == t[p..][k..];
    TrailingTicksMax(t, p + k);
  }

  /** The white space of a fence match at `p` that lies before the final backticks is counted by TrailingSpaces. */
  lemma FenceSpacesCounted(t: string, p: nat, k: int, ticks: nat)
    requires p <= |t| && FenceSplit(t[p..], k)
    requires |t| - (p + k) <= ticks && p <= |t| - ticks
    ensures |t| - ticks - p <= TrailingSpaces(t[..|t| - ticks])
  {
    var u := t[p..];
    var head := t[..|t| - ticks];
    var m := |t| - ticks - p;
    assert head[p..] == u[..m];
    AllSpacePrefix(u, k, m);
    TrailingSpacesMax(head, p);
  }

  /** Both replacements of the global regular expression: the opening fence, then the closing one. */
  function StripFences(s: string): (u: string)
    ensures OpeningFence(s) + |u| <= |s| && u == s[OpeningFence(s)..OpeningFence(s) + |u|]
  {
    var t := s[OpeningFence(s)..];
    t[..|t| - ClosingFence(t)]
  }

  /** `cleanAiOutput`. */
  function CleanAiOutput(html: string): (r: string)
    ensures Trimmed(r)
    ensures Contains(html, r)  // never rewrites the interior: the result is one contiguous piece of the input
  {
    var u := StripFences(html);
    var r := Trim(u);
    TrimOfPieceOccurs(html, OpeningFence(html), u, r);
    r
  }

  /** The trim of a piece of `s` occurs in `s`. */
  lemma TrimOfPieceOccurs(s: string, o: nat, u: string, r: string)
    requires o + |u| <= |s| && u == s[o..o + |u|]
    requires r == Trim(u)
    ensures Contains(s, r)
  {
    OccursWithin(s, o, u, r, LeadingSpaces(u));
  }

  /** Text that neither starts nor ends with three backticks comes back as exactly its trim. */
  lemma NoFenceIsTrim(html: string)
    requires !(|html| >= 3 && html[..3] == "```")
    requires TrailingTicks(html) < 3
    ensures CleanAiOutput(html) == Trim(html)
  {
    NothingToStrip(html);
  }

  /** Without a fence at either end the global replace changes nothing. */
  lemma NothingToStrip(html: string)
    requires !(|html| >= 3 && html[..3] == "```")
    requires TrailingTicks(html) < 3
    ensures StripFences(html) == html
  {
    assert OpeningFence(html) == 0;
    NoClosingFence(html);
    StripNothing(html);
  }

  /** Fewer than three final backticks: the second alternative matches nowhere. */
  lemma NoClosingFence(t: string)
    requires TrailingTicks(t) < 3
    ensures ClosingFence(t) == 0
  {
  }

  /** Two empty matches leave the text as it is. */
  lemma StripNothing(html: string)
    requires OpeningFence(html) == 0 && ClosingFence(html) == 0
    ensures StripFences(html) == html
  {
    assert html[0..] == html;
    assert html[..|html| - 0] == html;
  }


  /**
   * The opening pattern is anchored at index 0 and applied before the trim, so a fence after
   * leading white space stays; only a closing fence can go.
   */
  lemma IndentedFenceKept(html: string)
    requires html != [] && IsSpace(html[0])
    ensures CleanAiOutput(html) == Trim(html[..|html| - ClosingFence(html)])
  {
    assert |html| >= 3 ==> html[..3][0] == html[0];
    assert OpeningFence(html) == 0;
    assert html[0..] == html;
    assert StripFences(html) == html[..|html| - ClosingFence(html)];
  }

  /** A closing fence followed by white space is not at the end of the text, so it stays. */
  lemma FenceBeforeTrailingSpaceKept(html: string)
    requires !(|html| >= 3 && html[..3] == "```")
    requires html != [] && IsSpace(html[|html| - 1])
    ensures CleanAiOutput(html) == Trim(html)
  {
    NoFenceIsTrim(html);
  }

  /** A "```html" line is matched as the three backticks, the tag and the line break. */
  lemma {:induction false} TaggedOpening(x: string)
    requires x != [] && !IsSpace(x[0])
    ensures OpeningFence("```html\n" + x) == 8
  {
    var s := "```html\n" + x;
    LeadingTicksAtLeast(s, 3);
    assert s[..3] == "```" && s[3] == 'h';
    assert LeadingTicks(s) == 3;
    assert s[3..7] == "html";
    var a := s[7..];
    assert a[0] == '\n' && a[1..][0] == x[0];
    assert LeadingSpaces(a) == 1;
  }

  /** A final "```" line is matched together with the line break before it. */
  lemma {:induction false} BareClosing(y: string)
    requires y != [] && !IsSpace(y[|y| - 1]) && y[|y| - 1] != '`'
    ensures ClosingFence(y + "\n```") == 4
  {
    var t := y + "\n```";
    TrailingTicksMax(t, |t| - 3);
    assert t[|t| - 4] == '\n';
    assert TrailingTicks(t) == 3;
    var b := t[..|t| - 3];
    assert b == y + "\n";
    assert b[..|b| - 1] == y;
    assert TrailingSpaces(y) == 0;
    assert TrailingSpaces(b) == 1;
  }

  /** A block fenced as "```html" on its own line and "```" on the last line comes back as its bare content. */
  lemma {:induction false} CleanTaggedBlock(body: string)
    requires body != [] && Trimmed(body) && body[|body| - 1] != '`'
    ensures CleanAiOutput("```html\n" + body + "\n```") == body
  {
    var s := "```html\n" + body + "\n```";
    TaggedOpening(body + "\n```");
    assert s == "```html\n" + (body + "\n```");
    var t := s[8..];
    assert t == body + "\n```";
    BareClosing(body);
    assert t[..|t| - 4] == body;
    assert StripFences(s) == body;
    TrimOfTrimmed(body);
  }

  /** The canonical case: a fenced, tagged paragraph comes back as its bare markup. */
  lemma CleanFencedParagraph(html: string)
    requires html == "```html\n<p>x</p>\n```"
    ensures CleanAiOutput(html) == "<p>x</p>"
  {
    var body := "<p>x</p>";
    assert html == "```html\n" + body + "\n```";
    assert !IsSpace(body[0]) && !IsSpace(body[|body| - 1]);
    CleanTaggedBlock(body);
  }

  // ---------------------------------------------------------------------------------------------
  // The prompt
  // ---------------------------------------------------------------------------------------------

  const DocumentTypeKey := "document_type"
  const LanguageKey := "language"

  /** How a template literal renders a property that may be `undefined`. */
  function Interpolate(v: Option<string>): string {
    if v.Some? then v.value else "undefined"
  }

  /** The line `- key: value` of the details block. */
  function DetailLine(e: (string, string)): string {
    "- " + e.0 + ": " + e.1
  }

  function DetailLines(details: Entries): (lines: seq<string>)
    ensures |lines| == |details|
    ensures forall i :: 0 <= i < |details| ==> lines[i] == DetailLine(details[i])
  {
    if details == [] then [] else [DetailLine(details[0])] + DetailLines(details[1..])
  }

  /** The `...details` rest of the body: every entry but the document type and the language, in body order. */
  function Details(body: Entries): Entries {
    Without(body, {DocumentTypeKey, LanguageKey})
  }

  /** `detailsString`: the detail lines joined by newlines. */
  function DetailsString(body: Entries): string {
    Join(DetailLines(Details(body)), "\n")
  }

  /**
   * The details block reads back line by line: when no key or value holds a newline and there is at
   * least one detail, splitting it at newlines gives one `- key: value` line per detail, in order.
   */
  lemma DetailsStringLines(body: Entries)
    requires Details(body) != []
    requires forall e :: e in Details(body) ==> '\n' !in e.0 && '\n' !in e.1
    ensures Split(DetailsString(body), '\n') == DetailLines(Details(body))
  {
    var lines := DetailLines(Details(body));
    forall k | 0 <= k < |lines| ensures '\n' !in lines[k] {
      assert Details(body)[k] in Details(body);
    }
    SplitJoin(lines, '\n');
  }

  const PromptIntro := "\n      You are an expert legal document generator for Indian law. Your task is to draft a complete, professional, and fully-written "
  const PromptBeforeDetails := ".\n\n      You MUST use the following specific details to write the document:\n      "
  const PromptRule1 := "\n\n      CRITICAL INSTRUCTIONS:\n      1.  The entire document, including all headings and clauses, "
  const PromptRule3 := ".\n      2.  Generate the full, complete document.\n      3.  Write out the full text for all standard legal clauses, translated accurately into "
  const PromptRest := ".\n      4.  Your final output **MUST** be a single, clean, valid HTML string with proper legal formatting (bolding, alignment).\n      5.  **DO NOT** use placeholders. This is a critical failure.\n      6.  **DO NOT** include any CSS or markdown. This is a critical failure.\n    "

  /** The opening request: the quoted document type and the language it is to be written in. */
  function TypeSentence(documentType: string, language: string): string {
    "\"" + documentType + "\" in the " + language + " language"
  }

  /** The first critical instruction: the whole document in that language. */
  function LanguageRule(language: string): string {
    "MUST be in " + language
  }

  /** `userPrompt`: a fixed template with the document type, the language and the details block spliced in. */
  function UserPrompt(body: Entries): string {
    var language := Interpolate(Get(body, LanguageKey));
    PromptIntro + TypeSentence(Interpolate(Get(body, DocumentTypeKey)), language) + PromptBeforeDetails
      + DetailsString(body) + PromptRule1 + LanguageRule(language) + (PromptRule3 + language + PromptRest)
  }

  /** The prompt names the document type and the language, carries every detail and demands the language. */
  lemma UserPromptSplices(body: Entries)
    ensures Contains(UserPrompt(body), TypeSentence(Interpolate(Get(body, DocumentTypeKey)), Interpolate(Get(body, LanguageKey))))
    ensures Contains(UserPrompt(body), DetailsString(body))
    ensures Contains(UserPrompt(body), LanguageRule(Interpolate(Get(body, LanguageKey))))
  {
    var language := Interpolate(Get(body, LanguageKey));
    ThreeInside(PromptIntro, TypeSentence(Interpolate(Get(body, DocumentTypeKey)), language), PromptBeforeDetails,
      DetailsString(body), PromptRule1, LanguageRule(language), PromptRule3 + language + PromptRest);
  }


  // ---------------------------------------------------------------------------------------------
  // The response cache: `new LRUCache<string, string>({ max: 50, ttl: 1000 * 60 * 5 })`
  // ---------------------------------------------------------------------------------------------

  const MaxEntries := 50
  const TtlMs := 1000 * 60 * 5

  datatype Entry = Entry(html: string, storedAt: int)

  /**
   * A bounded map from request key to cleaned markup with a time-to-live. The clock is the `now`
   * argument of each call, in milliseconds. Which entry makes room when the cache is full is left
   * open: the model only promises that one other entry goes.
   */
  class DraftCache {
    const capacity: nat
    const ttl: nat
    var entries: map<string, Entry>

    ghost predicate Valid()
      reads this
    {
      0 < capacity && |entries| <= capacity
    }

    /** The cache of the drafting route, configured as at module load. */
    constructor ()
      ensures Valid() && capacity == MaxEntries && ttl == TtlMs && entries == map[]
    {
      capacity := MaxEntries;
      ttl := TtlMs;
      entries := map[];
    }

    /** An entry is served until more than `ttl` milliseconds have passed since it was set. */
    predicate Fresh(key: string, now: int)
      reads this
    {
      key in entries && now - entries[key].storedAt <= ttl
    }

    /** What `get` returns at time `now`. */
    function Lookup(key: string, now: int): (r: Option<string>)
      reads this
      ensures r.Some? <==> Fresh(key, now)
    {
      if Fresh(key, now) then Some(entries[key].html) else None
    }

    /** `cache.has(key)`: true only for an entry that has not expired. */
    method Has(key: string, now: int) returns (b: bool)
      ensures b <==> Fresh(key, now)
    {
      b := key in entries && now - entries[key].storedAt <= ttl;
    }

    /** `cache.get(key)`: an expired entry reads as absent and is dropped. */
    method Get(key: string, now: int) returns (r: Option<string>)
      requires Valid()
      modifies this
      ensures Valid()
      ensures r == old(Lookup(key, now))
      ensures entries == if key in old(entries) && !old(Fresh(key, now)) then old(entries) - {key} else old(entries)
    {
      if key in entries {
        if now - entries[key].storedAt <= ttl {
          r := Some(entries[key].html);
        } else {
          r := None;
          entries := entries - {key};
        }
      } else {
        r := None;
      }
    }

    /** `cache.set(key, html)`: stores or overwrites, restarting the entry's time-to-live, and makes room when full. */
    method Set(key: string, html: string, now: int)
      requires Valid()
      modifies this
      ensures Valid()
      ensures key in entries && entries[key] == Entry(html, now)
      ensures forall k :: k in entries && k != key ==> k in old(entries) && entries[k] == old(entries)[k]
      ensures key in old(entries) || |old(entries)| < capacity ==> entries == old(entries)[key := Entry(html, now)]
      ensures |entries| >= |old(entries)|
    {
      if key !in entries && |entries| >= capacity {
        var victim :| victim in entries;
        entries := entries - {victim};
      }
      entries := entries[key := Entry(html, now)];
    }
  }

  // ---------------------------------------------------------------------------------------------
  // POST /api/generate-document
  // ---------------------------------------------------------------------------------------------

  const GenerateFailed := "Failed to generate document"

  /** `{ htmlContent }` at status 200, or `{ error, details }` at status 500. */
  datatype DraftResponse = Drafted(htmlContent: string) | DraftFailed(status: nat, error: string, details: string)

  /**
   * The route handler. `request` is the parsed JSON body or the parse error, `stringify` stands
   * for `JSON.stringify` and `agent` for the drafting agent, which returns the model's text or
   * throws. `prompt` is the prompt handed to the agent, `None` when the agent is not called.
   */
  method Post(cache: DraftCache, request: Result<Entries>, now: int, stringify: Entries -> string, agent: string -> Result<string>)
    returns (response: DraftResponse, prompt: Option<string>)
    requires cache.Valid()
    modifies cache
    ensures cache.Valid()
    ensures request.Err? ==>
      response == DraftFailed(500, GenerateFailed, request.message) && prompt == None && cache.entries == old(cache.entries)
    ensures request.Ok? && old(cache.Lookup(stringify(request.value), now)).Some? ==>
      && response == Drafted(old(cache.Lookup(stringify(request.value), now)).value)
      && prompt == None
      && cache.entries == old(cache.entries)
    ensures request.Ok? && old(cache.Lookup(stringify(request.value), now)).None? ==>
      prompt == Some(UserPrompt(request.value))
    ensures request.Ok? && old(cache.Lookup(stringify(request.value), now)).None? && agent(UserPrompt(request.value)).Ok? ==>
      var cleaned := CleanAiOutput(agent(UserPrompt(request.value)).value);
      && response == Drafted(cleaned)
      && cache.Lookup(stringify(request.value), now) == Some(cleaned)
      && (forall k :: k in cache.entries && k != stringify(request.value) ==>
            k in old(cache.entries) && cache.entries[k] == old(cache.entries)[k])
      && (stringify(request.value) in old(cache.entries) || |old(cache.entries)| < cache.capacity ==>
            cache.entries == old(cache.entries)[stringify(request.value) := Entry(cleaned, now)])
    ensures request.Ok? && old(cache.Lookup(stringify(request.value), now)).None? && agent(UserPrompt(request.value)).Err? ==>
      && response == DraftFailed(500, GenerateFailed, agent(UserPrompt(request.value)).message)
      && cache.entries == old(cache.entries)
  {
    if request.Err? {
      return DraftFailed(500, GenerateFailed, request.message), None;
    }
    var body := request.value;
    var cacheKey := stringify(body);
    var hit := cache.Has(cacheKey, now);
    if hit {
      var cached := cache.Get(cacheKey, now);
      return Drafted(cached.value), None;
    }
    var userPrompt := UserPrompt(body);
    prompt := Some(userPrompt);
    var raw := agent(userPrompt);
    if raw.Err? {
      return DraftFailed(500, GenerateFailed, raw.message), prompt;
    }
    var cleanedHtml := CleanAiOutput(raw.value);
    cache.Set(cacheKey, cleanedHtml, now);
    response := Drafted(cleanedHtml);
  }
}
