/**
 * The iterate-until-confident loop of the legal analysis pipeline (`Feedback.process_feedback`):
 * a search processor and a causal-analysis processor are kicked off in turn, the causal
 * output decides whether another round is needed and what feedback the next search gets,
 * and any exception inside a round is swallowed.
 *
 * The processors are abstract: `kickoff` is any function of the round number and the
 * inputs, which stands for whatever the language models answer. Python's `json.loads` and
 * `str()` of a dict or list are parameters as well.
 */
module FeedbackLoop {
  import opened Wrappers
  import opened Text
  import opened JsonModel

  // The keys the loop reads from its input and from the causal output.
  const ReadyTextKey := "analiz_için_hazir_metin"
  const RawKey := "raw"
  const NeedsKey := "needs_reanalysis"
  const SuggestionsKey := "feedback_suggestions"
  const ImprovementsKey := "iyileştirme_önerileri"
  const CriticalKey := "kritik_eksikler"

  /** The opening fence of a Markdown JSON block, and the bare fence. */
  const JsonFence := "```json"
  const Fence := "```"

  const CriticalLabel := "Kritik eksikler: "

  /** The value `search_data` holds until a search succeeds. */
  const NoResult := JString("Hata")

  /** The inputs of one kickoff: the topic, the confidence threshold and the feedback. */
  datatype Inputs = Inputs(topic: Json, threshold: Json, feedback: Json)

  /** What a kickoff returns: a plain value, or a model object whose `model_dump()` is `dump`. */
  datatype Output = Plain(value: Json) | Model(dump: Json)

  /** A kickoff raises (after its retries, if any) or returns. */
  datatype Outcome = Raised | Returned(output: Output)

  /** The outcome of the n-th round's kickoff of one processor, given its inputs. */
  type Kickoff = (nat, Inputs) -> Outcome

  /**
   * Python's `json.loads` (None stands for `JSONDecodeError`) and `str()` of a dict or a list;
   * `str()` of a scalar is `PyStr`.
   */
  datatype Python = Python(loads: string -> Option<Json>, strOfStructured: Json -> string)

  /** Everything a call of the loop depends on that does not change while it runs. */
  datatype Env = Env(search: Kickoff, causal: Kickoff, maxIterations: int, py: Python, topic: Json, threshold: Json)

  /** The loop's variables besides the counter. */
  datatype State = State(needs: Json, feedback: Json, searchData: Json, causalData: Json)

  /** The variables before the first round. */
  const Initial := State(JBool(true), JString(""), NoResult, JObject(map[]))

  /** One round either returns from the loop or goes on with new variables. */
  datatype Round = Settled(result: Json) | Continue(next: State)

  /** The value of the loop and how many rounds it ran; `settled` when a round returned. */
  datatype Finish = Finish(result: Json, rounds: nat, settled: bool)

  /** The value a kickoff's output is used as: the dump of a model object, the value otherwise. */
  function Dumped(o: Output): Json {
    match o
    case Plain(v) => v
    case Model(d) => d
  }

  /** Python's `str(v)`. */
  function Str(py: Python, v: Json): string {
    if v.IsStructured() then py.strOfStructured(v) else PyStr(v)
  }

  /** `d.get(key, default)`. */
  function Lookup(d: map<string, Json>, key: string, default: Json): Json {
    if key in d then d[key] else default
  }

  // ---------------------------------------------------------------------------------------
  // The text under analysis

  /** `original_text`: the ready text of a dict that has one, a string input itself, or "". */
  function OriginalText(processedData: Json): (r: Json)
    ensures processedData.JString? ==> r == processedData
    ensures processedData.JObject? && ReadyTextKey in processedData.fields ==> r == processedData.fields[ReadyTextKey]
    ensures !processedData.JString? && !(processedData.JObject? && ReadyTextKey in processedData.fields) ==> r == JString("")
  {
    if processedData.JObject? && ReadyTextKey in processedData.fields then processedData.fields[ReadyTextKey]
    else if processedData.JString? then processedData
    else JString("")
  }

  /** The `topic` both processors are given: the original text when it is truthy, else the input. */
  function Topic(processedData: Json): Json {
    var original := OriginalText(processedData);
    if Truthy(original) then original else processedData
  }

  /**
   * The topic is the input itself unless the input is a dict with a truthy ready text, and it
   * is falsy only when the input is.
   */
  lemma TopicOf(processedData: Json)
    ensures Topic(processedData) != processedData ==>
      processedData.JObject? && ReadyTextKey in processedData.fields && Truthy(processedData.fields[ReadyTextKey])
    ensures Truthy(Topic(processedData)) <==> Truthy(processedData) || Truthy(OriginalText(processedData))
  {
  }

  // ---------------------------------------------------------------------------------------
  // Reading the causal output

  /** The raw text after a leading ```` ```json ```` fence is removed with every other fence. */
  function StripFence(raw: string): string {
    if StartsWith(raw, JsonFence) then Strip(RemoveAll(RemoveAll(raw, JsonFence), Fence)) else raw
  }

  /** Removing a pattern from a text followed by the pattern leaves the text, when the text cannot start it. */
  lemma {:induction false} RemoveTrailing(a: string, pat: string)
    requires pat != []
    requires pat[0] !in a
    ensures RemoveAll(a + pat, pat) == a
    decreases |a|
  {
    if a == [] {
      assert a + pat == pat;
      assert OccursAt(pat, pat, 0);
      assert pat[|pat|..] == [];
    } else {
      assert (a + pat)[0] == a[0];
      assert !StartsWith(a + pat, pat);
      assert (a + pat)[1..] == a[1..] + pat;
      RemoveTrailing(a[1..], pat);
    }
  }

  /** A fenced JSON block whose body has no backquotes is read as its stripped body. */
  lemma FencedPayload(body: string)
    requires '`' !in body
    ensures StripFence(JsonFence + body + Fence) == Strip(body)
  {
    var raw := JsonFence + body + Fence;
    assert raw == JsonFence + (body + Fence);
    assert raw[..|JsonFence|] == JsonFence;
    assert OccursAt(raw, JsonFence, 0);
    assert raw[|JsonFence|..] == body + Fence;
    var rest := body + Fence;
    forall i | 0 <= i <= |rest| - |JsonFence|
      ensures !OccursAt(rest, JsonFence, i)
    {
      assert rest[i..i + |JsonFence|][0] == rest[i] == body[i];
    }
    assert RemoveAll(raw, JsonFence) == rest;
    RemoveTrailing(body, Fence);
  }

  /**
   * The causal dict after its `raw` text is read: the parsed object's keys overwrite the
   * dict's; None when the text parses to something other than an object (`.items()` raises).
   */
  function Reparse(py: Python, fields: map<string, Json>): (r: Option<map<string, Json>>)
    ensures r.Some? ==> fields.Keys <= r.value.Keys
    ensures !(RawKey in fields && fields[RawKey].JString?) ==> r == Some(fields)
    // a `raw` text that does not decode leaves the dict as it was
    ensures RawKey in fields && fields[RawKey].JString? && py.loads(StripFence(fields[RawKey].s)).None? ==>
      r == Some(fields)
    // a decoded object's keys overwrite the dict's, and every other key is kept
    ensures RawKey in fields && fields[RawKey].JString? && py.loads(StripFence(fields[RawKey].s)).Some? &&
            py.loads(StripFence(fields[RawKey].s)).value.JObject? ==>
      var parsed := py.loads(StripFence(fields[RawKey].s)).value.fields;
      && r.Some? && r.value.Keys == fields.Keys + parsed.Keys
      && (forall k :: k in parsed ==> r.value[k] == parsed[k])
      && (forall k :: k in fields && k !in parsed ==> r.value[k] == fields[k])
    // a decoded value that is not an object makes `.items()` raise
    ensures (&& RawKey in fields && fields[RawKey].JString? && py.loads(StripFence(fields[RawKey].s)).Some?
             && !py.loads(StripFence(fields[RawKey].s)).value.JObject?) ==> r == None
  {
    if RawKey in fields && fields[RawKey].JString? then
      match py.loads(StripFence(fields[RawKey].s))
      case None => Some(fields)
      case Some(parsed) =>
        if parsed.JObject? then Some(fields + parsed.fields) else None
    else Some(fields)
  }

  /** The `needs_reanalysis` value after a string is coerced to whether it reads "true". */
  function Coerce(v: Json): (r: Json)
    ensures !v.JString? ==> r == v
    ensures v.JString? ==> r.JBool?
  {
    if v.JString? then JBool(Lower(v.s) == "true") else v
  }

  /** A word of lower-case ASCII letters. */
  predicate IsLowerWord(word: string) {
    forall k :: 0 <= k < |word| ==> 'a' <= word[k] <= 'z'
  }

  /** `s` spells `word` with any of its letters in upper case. */
  predicate SpelledAnyCase(s: string, word: string) {
    |s| == |word|
    && forall k :: 0 <= k < |s| ==> s[k] == word[k] || ('A' <= s[k] <= 'Z' && s[k] as int + 32 == word[k] as int)
  }

  /** One character lower-cases to one character, except capital dotted I. */
  lemma LowerCharShape(c: char)
    ensures |LowerChar(c)| == 1 || LowerChar(c) == ['i', 0x307 as char]
  {
  }

  /** A character lower-cases to a lower-case ASCII letter exactly when it is that letter in either case. */
  lemma LowerCharToLetter(c: char, x: char)
    requires 'a' <= x <= 'z'
    ensures LowerChar(c) == [x] <==> c == x || ('A' <= c <= 'Z' && c as int + 32 == x as int)
  {
  }

  /** A string lower-cases to a word of lower-case letters exactly when it spells that word in any case. */
  lemma {:induction false} LowerEqualsWord(s: string, word: string)
    requires IsLowerWord(word)
    ensures Lower(s) == word <==> SpelledAnyCase(s, word)
  {
    if s == [] {
    } else {
      var head := LowerChar(s[0]);
      LowerCharShape(s[0]);
      assert Lower(s) == head + Lower(s[1..]);
      if word == [] {
      } else {
        assert IsLowerWord(word[1..]);
        LowerEqualsWord(s[1..], word[1..]);
        LowerCharToLetter(s[0], word[0]);
        if Lower(s) == word {
          assert head == [word[0]];
          assert Lower(s[1..]) == word[1..];
        }
        if SpelledAnyCase(s, word) {
          assert SpelledAnyCase(s[1..], word[1..]);
          assert word == [word[0]] + word[1..];
        }
      }
    }
  }

  /**
   * A string `needs_reanalysis` asks for another round exactly when it spells "true" in any
   * mix of cases; a missing one does not.
   */
  lemma NeedsFlag(s: string, fields: map<string, Json>)
    ensures Truthy(Coerce(JString(s))) <==> SpelledAnyCase(s, "true")
    ensures NeedsKey !in fields ==> !Truthy(Coerce(Lookup(fields, NeedsKey, JBool(false))))
  {
    LowerEqualsWord(s, "true");
  }

  /** The feedback suggestions, falling back to `str()` of the improvements when they are falsy. */
  function Suggested(py: Python, fields: map<string, Json>): (r: Json)
    ensures Truthy(Lookup(fields, SuggestionsKey, JString(""))) ==> r == fields[SuggestionsKey]
    ensures !Truthy(r) ==> ImprovementsKey !in fields || Str(py, fields[ImprovementsKey]) == ""
    ensures !Truthy(Lookup(fields, SuggestionsKey, JString(""))) && ImprovementsKey in fields ==>
      r == JString(Str(py, fields[ImprovementsKey]))
    ensures !Truthy(Lookup(fields, SuggestionsKey, JString(""))) && ImprovementsKey !in fields ==>
      r == Lookup(fields, SuggestionsKey, JString(""))
  {
    var suggestions := Lookup(fields, SuggestionsKey, JString(""));
    if !Truthy(suggestions) && ImprovementsKey in fields then JString(Str(py, fields[ImprovementsKey]))
    else suggestions
  }

  /** The characters of a text as one-character strings: what `list += str` appends. */
  function Chars(t: string): (r: seq<Json>)
    ensures |r| == |t|
    ensures forall k :: 0 <= k < |t| ==> r[k] == JString([t[k]])
  {
    seq(|t|, k requires 0 <= k < |t| => JString([t[k]]))
  }

  /** `feedback_suggestions += text`: concatenation on a string, extension on a list, TypeError otherwise. */
  function AppendText(suggestions: Json, text: string): (r: Option<Json>)
    ensures r.Some? <==> suggestions.JString? || suggestions.JArray?
    ensures suggestions.JString? ==> r == Some(JString(suggestions.s + text))
    ensures suggestions.JArray? ==> r == Some(JArray(suggestions.items + Chars(text)))
  {
    match suggestions
    case JString(s) => Some(JString(s + text))
    case JArray(items) => Some(JArray(items + Chars(text)))
    case _ => None
  }

  predicate EndsWith(s: string, suffix: string) {
    |suffix| <= |s| && s[|s| - |suffix|..] == suffix
  }

  /**
   * The suggestions after a truthy `kritik_eksikler` is noted; None when the note cannot be
   * appended (the suggestions are truthy and neither a string nor a list).
   */
  function WithCritical(py: Python, fields: map<string, Json>, suggestions: Json): (r: Option<Json>)
    ensures r.None? <==>
      CriticalKey in fields && Truthy(fields[CriticalKey]) && Truthy(suggestions) && !suggestions.JString? && !suggestions.JArray?
    ensures !(CriticalKey in fields && Truthy(fields[CriticalKey])) ==> r == Some(suggestions)
    ensures r.Some? && suggestions.JString? ==> r.value.JString? && StartsWith(r.value.s, suggestions.s)
    ensures r.Some? && CriticalKey in fields && Truthy(fields[CriticalKey]) && r.value.JString? ==>
      EndsWith(r.value.s, CriticalLabel + Str(py, fields[CriticalKey]))
    ensures r.Some? && suggestions.JArray? && suggestions.items != [] ==>
      r.value.JArray? && |suggestions.items| <= |r.value.items| && r.value.items[..|suggestions.items|] == suggestions.items
    // the two texts the note produces: appended after a space, or alone
    ensures CriticalKey in fields && Truthy(fields[CriticalKey]) && Truthy(suggestions) && suggestions.JString? ==>
      r == Some(JString(suggestions.s + " " + CriticalLabel + Str(py, fields[CriticalKey])))
    ensures CriticalKey in fields && Truthy(fields[CriticalKey]) && Truthy(suggestions) && suggestions.JArray? ==>
      r == Some(JArray(suggestions.items + Chars(" " + CriticalLabel + Str(py, fields[CriticalKey]))))
    ensures CriticalKey in fields && Truthy(fields[CriticalKey]) && !Truthy(suggestions) ==>
      r == Some(JString(CriticalLabel + Str(py, fields[CriticalKey])))
  {
    if CriticalKey in fields && Truthy(fields[CriticalKey]) then
      var note := CriticalLabel + Str(py, fields[CriticalKey]);
      if Truthy(suggestions) then
        assert " " + note == " " + CriticalLabel + Str(py, fields[CriticalKey]);
        var r := AppendText(suggestions, " " + note);
        assert r.Some? && r.value.JString? ==> r.value.s == suggestions.s + " " + note;
        assert suggestions.JString? ==> suggestions.s + " " + note == suggestions.s + " " + CriticalLabel + Str(py, fields[CriticalKey]);
        assert r.Some? && r.value.JString? ==> r.value.s[|r.value.s| - |note|..] == note;
        r
      else
        assert suggestions.JString? ==> suggestions.s == "";
        Some(JString(note))
    else Some(suggestions)
  }

  // ---------------------------------------------------------------------------------------
  // One round and the loop

  /**
   * The rest of a round once the causal processor has answered: an exception leaves the
   * variables assigned so far and goes on to the next round; otherwise a falsy
   * `needs_reanalysis` returns the round's search data.
   */
  function Digest(py: Python, st: State): (r: Round)
    ensures r.Settled? ==> r.result == st.searchData
    ensures !st.causalData.JObject? ==> r == Continue(st)
    ensures r.Continue? ==> r.next.searchData == st.searchData
    ensures st.causalData.JObject? && Reparse(py, st.causalData.fields).None? ==> r == Continue(st)
    // the round settles exactly when nothing raised and the coerced flag is falsy
    ensures st.causalData.JObject? && Reparse(py, st.causalData.fields).Some? ==>
      var fields := Reparse(py, st.causalData.fields).value;
      var needs := Coerce(Lookup(fields, NeedsKey, JBool(false)));
      r.Settled? <==> WithCritical(py, fields, Suggested(py, fields)).Some? && !Truthy(needs)
    // otherwise the flag, the suggestions so far and the reparsed dict carry over to the next round
    ensures st.causalData.JObject? && Reparse(py, st.causalData.fields).Some? && r.Continue? ==>
      var fields := Reparse(py, st.causalData.fields).value;
      var noted := WithCritical(py, fields, Suggested(py, fields));
      r.next == st.(needs := Coerce(Lookup(fields, NeedsKey, JBool(false))),
                    feedback := if noted.Some? then noted.value else Suggested(py, fields),
                    causalData := JObject(fields))
  {
    if !st.causalData.JObject? then Continue(st)
    else
      match Reparse(py, st.causalData.fields)
      case None => Continue(st)
      case Some(fields) =>
        var needs := Coerce(Lookup(fields, NeedsKey, JBool(false)));
        var noted := st.(needs := needs, feedback := Suggested(py, fields), causalData := JObject(fields));
        match WithCritical(py, fields, noted.feedback)
        case None => Continue(noted)
        case Some(suggestions) =>
          if Truthy(needs) then Continue(noted.(feedback := suggestions)) else Settled(st.searchData)
  }

  /** Round `i` of the loop, from the variables `st`. */
  function Step(env: Env, i: nat, st: State): (r: Round)
    ensures env.search(i, Inputs(env.topic, env.threshold, st.feedback)).Raised? ==> r == Continue(st)
    ensures r.Settled? ==>
      env.search(i, Inputs(env.topic, env.threshold, st.feedback)).Returned?
      && r.result == Dumped(env.search(i, Inputs(env.topic, env.threshold, st.feedback)).output)
  {
    match env.search(i, Inputs(env.topic, env.threshold, st.feedback))
    case Raised => Continue(st)
    case Returned(out) =>
      var searchData := Dumped(out);
      match env.causal(i, Inputs(env.topic, env.threshold, searchData))
      case Raised => Continue(st.(searchData := searchData))
      case Returned(c) => Digest(env.py, st.(searchData := searchData, causalData := Dumped(c)))
  }

  function Max0(n: int): nat {
    if n < 0 then 0 else n
  }

  /**
   * The loop from round `i` with variables `st`: it runs at most the remaining rounds, and
   * stops before them only when a round settles.
   */
  function Run(env: Env, i: nat, st: State): (r: Finish)
    ensures r.rounds <= Max0(env.maxIterations - i)
    ensures !r.settled ==> r.rounds == Max0(env.maxIterations - i)
    ensures r.settled ==> 1 <= r.rounds
    decreases env.maxIterations - i
  {
    if i >= env.maxIterations then Finish(st.searchData, 0, false)
    else
      match Step(env, i, st)
      case Settled(x) => Finish(x, 1, true)
      case Continue(next) =>
        var f := Run(env, i + 1, next);
        f.(rounds := f.rounds + 1)
  }

  /** The variables after `k` more rounds from round `i`, or None when one of them settled. */
  function After(env: Env, i: nat, st: State, k: nat): Option<State>
    decreases k
  {
    if k == 0 then Some(st)
    else
      match Step(env, i, st)
      case Settled(_) => None
      case Continue(next) => After(env, i + 1, next, k - 1)
  }

  /** The loop returns the search data of the first round that settles, after that many rounds. */
  lemma {:induction false} FirstSettledIsReturned(env: Env, i: nat, st: State, k: nat, s: State, x: Json)
    requires i + k < env.maxIterations
    requires After(env, i, st, k) == Some(s)
    requires Step(env, i + k, s) == Settled(x)
    ensures Run(env, i, st) == Finish(x, k + 1, true)
    decreases k
  {
    if k > 0 {
      match Step(env, i, st)
      case Settled(_) =>
      case Continue(next) =>
        FirstSettledIsReturned(env, i + 1, next, k - 1, s, x);
    }
  }

  /**
   * Conversely, a settled loop's value is the search data of the round that settled after
   * rounds that did not, and an unsettled loop returns the search data left by its last round.
   */
  lemma {:induction false} RunExplained(env: Env, i: nat, st: State)
    ensures var r := Run(env, i, st);
      if r.settled then
        After(env, i, st, r.rounds - 1).Some?
        && Step(env, i + r.rounds - 1, After(env, i, st, r.rounds - 1).value) == Settled(r.result)
      else
        After(env, i, st, r.rounds).Some? && r.result == After(env, i, st, r.rounds).value.searchData
    decreases env.maxIterations - i
  {
    if i < env.maxIterations {
      match Step(env, i, st)
      case Settled(_) =>
      case Continue(next) =>
        RunExplained(env, i + 1, next);
    }
  }

  /** With no round to run the loop returns "Hata". */
  lemma NoRounds(env: Env)
    requires env.maxIterations <= 0
    ensures Run(env, 0, Initial) == Finish(NoResult, 0, false)
  {
  }

  /** When every search raises, no round settles and the loop returns the search data it started with. */
  lemma {:induction false} SearchAlwaysFails(env: Env, i: nat, st: State)
    requires forall k: nat, x: Inputs :: env.search(k, x).Raised?
    ensures Run(env, i, st) == Finish(st.searchData, Max0(env.maxIterations - i), false)
    decreases env.maxIterations - i
  {
    if i < env.maxIterations {
      assert env.search(i, Inputs(env.topic, env.threshold, st.feedback)).Raised?;
      SearchAlwaysFails(env, i + 1, st);
    }
  }

  /** A search that raises costs a round and changes nothing else. */
  lemma SearchFailureSkipsRound(env: Env, i: nat, st: State)
    requires i < env.maxIterations
    requires env.search(i, Inputs(env.topic, env.threshold, st.feedback)).Raised?
    ensures Run(env, i, st) == Run(env, i + 1, st).(rounds := Run(env, i + 1, st).rounds + 1)
  {
  }

  /** A causal step that raises costs a round and keeps the round's new search data. */
  lemma CausalFailureKeepsSearch(env: Env, i: nat, st: State, out: Output)
    requires i < env.maxIterations
    requires env.search(i, Inputs(env.topic, env.threshold, st.feedback)) == Returned(out)
    requires env.causal(i, Inputs(env.topic, env.threshold, Dumped(out))).Raised?
    ensures var next := st.(searchData := Dumped(out));
      Run(env, i, st) == Run(env, i + 1, next).(rounds := Run(env, i + 1, next).rounds + 1)
  {
  }

  // ---------------------------------------------------------------------------------------
  // The imperative loop

  /** `causal_data_dict[key] = value` for every item of the parsed object. */
  method MergeInto(fields: map<string, Json>, parsed: map<string, Json>) returns (r: map<string, Json>)
    ensures r.Keys == fields.Keys + parsed.Keys
    ensures forall k :: k in parsed ==> r[k] == parsed[k]
    ensures forall k :: k in fields && k !in parsed ==> r[k] == fields[k]
  {
    r := fields;
    var pending := parsed.Keys;
    while pending != {}
      invariant pending <= parsed.Keys
      invariant r.Keys == fields.Keys + (parsed.Keys - pending)
      invariant forall k :: k in parsed && k !in pending ==> r[k] == parsed[k]
      invariant forall k :: k in fields && k !in parsed ==> r[k] == fields[k]
      invariant forall k :: k in fields && k in pending ==> r[k] == fields[k]
      decreases pending
    {
      var key :| key in pending;
      r := r[key := parsed[key]];
      pending := pending - {key};
    }
  }

  /**
   * Reading the `raw` text of the causal dict into it; None when `.items()` raises on a
   * parsed value that is not an object.
   */
  method ReadRaw(py: Python, fields: map<string, Json>) returns (r: Option<map<string, Json>>)
    ensures r == Reparse(py, fields)
  {
    if RawKey in fields && fields[RawKey].JString? {
      var rawContent := fields[RawKey].s;
      if StartsWith(rawContent, JsonFence) {
        rawContent := Strip(RemoveAll(RemoveAll(rawContent, JsonFence), Fence));
      }
      var parsed := py.loads(rawContent);
      if parsed.Some? {
        if !parsed.value.JObject? {
          return None;
        }
        var merged := MergeInto(fields, parsed.value.fields);
        assert merged == fields + parsed.value.fields;
        return Some(merged);
      }
    }
    r := Some(fields);
  }

  /** The suggestions after `kritik_eksikler` is noted; None when `+=` raises. */
  method NoteCritical(py: Python, fields: map<string, Json>, suggestions: Json) returns (r: Option<Json>)
    ensures r == WithCritical(py, fields, suggestions)
  {
    r := Some(suggestions);
    if CriticalKey in fields {
      var critical := fields[CriticalKey];
      if Truthy(critical) {
        var note := CriticalLabel + Str(py, critical);
        if Truthy(suggestions) {
          r := AppendText(suggestions, " " + note);
        } else {
          r := Some(JString(note));
        }
      }
    }
  }

  /**
   * The causal half of a round's `try` block, once `causal_data_dict` is assigned: an
   * exception ends the round with the variables assigned so far.
   */
  method ReadCausal(py: Python, st: State) returns (r: Round)
    ensures r == Digest(py, st)
  {
    if !st.causalData.JObject? {
      return Continue(st);
    }
    var read := ReadRaw(py, st.causalData.fields);
    if read.None? {
      return Continue(st);
    }
    var fields := read.value;
    var needsReanalysis := Lookup(fields, NeedsKey, JBool(false));
    if needsReanalysis.JString? {
      needsReanalysis := JBool(Lower(needsReanalysis.s) == "true");
    }
    var feedbackSuggestions := Lookup(fields, SuggestionsKey, JString(""));
    if !Truthy(feedbackSuggestions) && ImprovementsKey in fields {
      feedbackSuggestions := JString(Str(py, fields[ImprovementsKey]));
    }
    var noted := State(needsReanalysis, feedbackSuggestions, st.searchData, JObject(fields));
    var appended := NoteCritical(py, fields, feedbackSuggestions);
    if appended.None? {
      return Continue(noted);
    }
    if !Truthy(needsReanalysis) {
      return Settled(st.searchData);
    }
    r := Continue(noted.(feedback := appended.value));
  }

  /** One round's `try` block: the two kickoffs, then the causal output is read. */
  method Attempt(env: Env, i: nat, st: State) returns (r: Round)
    ensures r == Step(env, i, st)
  {
    var searchOutcome := env.search(i, Inputs(env.topic, env.threshold, st.feedback));
    if searchOutcome.Raised? {
      return Continue(st);
    }
    var searchData := Dumped(searchOutcome.output);
    var causalOutcome := env.causal(i, Inputs(env.topic, env.threshold, searchData));
    if causalOutcome.Raised? {
      return Continue(st.(searchData := searchData));
    }
    r := ReadCausal(env.py, st.(searchData := searchData, causalData := Dumped(causalOutcome.output)));
  }

  /** The `while` loop of `process_feedback`. */
  method Iterate(env: Env) returns (r: Json)
    ensures r == Run(env, 0, Initial).result
  {
    var feedbackSuggestions := JString("");
    var currentIteration: nat := 0;
    var needsReanalysis := JBool(true);
    var searchData := NoResult;
    var causalDataDict := JObject(map[]);
    while currentIteration < env.maxIterations
      invariant Run(env, currentIteration, State(needsReanalysis, feedbackSuggestions, searchData, causalDataDict)).result
        == Run(env, 0, Initial).result
      decreases env.maxIterations - currentIteration
    {
      var round := Attempt(env, currentIteration, State(needsReanalysis, feedbackSuggestions, searchData, causalDataDict));
      match round
      case Settled(x) =>
        return x;
      case Continue(next) =>
        needsReanalysis, feedbackSuggestions, searchData, causalDataDict :=
          next.needs, next.feedback, next.searchData, next.causalData;
      currentIteration := currentIteration + 1;
    }
    r := searchData;
  }

  /** A processor: its kickoff and its `topic` attribute (None when it has none). */
  class Processor {
    const kickoff: Kickoff
    var topic: Option<Json>

    constructor (kickoff: Kickoff, topic: Option<Json>)
      ensures this.kickoff == kickoff && this.topic == topic
    {
      this.kickoff := kickoff;
      this.topic := topic;
    }
  }

  class Feedback {
    const searchProcessor: Processor
    const causalProcessor: Processor
    const maxIterations: int

    constructor (searchProcessor: Processor, causalProcessor: Processor, maxIterations: int)
      ensures this.searchProcessor == searchProcessor && this.causalProcessor == causalProcessor
      ensures this.maxIterations == maxIterations
    {
      this.searchProcessor := searchProcessor;
      this.causalProcessor := causalProcessor;
      this.maxIterations := maxIterations;
    }

    /**
     * `process_feedback`: a processor with a `topic` attribute gets the original text as its
     * topic, and the result is the value of the loop.
     */
    method ProcessFeedback(py: Python, processedData: Json, confidenceThreshold: Json) returns (r: Json)
      modifies searchProcessor, causalProcessor
      ensures searchProcessor.topic == if old(searchProcessor.topic).Some? then Some(OriginalText(processedData)) else None
      ensures causalProcessor.topic == if old(causalProcessor.topic).Some? then Some(OriginalText(processedData)) else None
      ensures r == Run(Env(searchProcessor.kickoff, causalProcessor.kickoff, maxIterations, py,
                           Topic(processedData), confidenceThreshold), 0, Initial).result
    {
      var originalText := OriginalText(processedData);
      if searchProcessor.topic.Some? {
        searchProcessor.topic := Some(originalText);
      }
      if causalProcessor.topic.Some? {
        causalProcessor.topic := Some(originalText);
      }
      r := Iterate(Env(searchProcessor.kickoff, causalProcessor.kickoff, maxIterations, py,
                       Topic(processedData), confidenceThreshold));
    }
  }
}
