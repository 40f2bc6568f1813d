/** The shaping around the generative-AI calls (services/geminiService.ts):
    what is sent, and how an answer, a missing answer or a failure is turned
    into the value the pages receive. The SDK call itself is not modelled:
    its response, or the fact that it threw, is an input. */
module GeminiService {
  import opened Outcomes
  import opened Text
  import opened Types

  // ---------------------------------------------------------------------
  // getTutorResponse

  /** A past turn of the conversation, as the page passes it. */
  datatype Turn = Turn(role: Role, text: string)

  /** One entry of the request's `contents`. */
  datatype Content = Content(role: Role, parts: seq<string>)

  const TutorFallback := "Désolé, je rencontre une petite difficulté technique."

  /** The request's `contents`: every past turn as one text part, in order,
      then the new message as a user turn. */
  function TutorContents(history: seq<Turn>, message: string): (r: seq<Content>)
    ensures |r| == |history| + 1
    ensures forall i :: 0 <= i < |history| ==> r[i] == Content(history[i].role, [history[i].text])
    ensures r[|history|] == Content(User, [message])
  {
    seq(|history|, i requires 0 <= i < |history| => Content(history[i].role, [history[i].text]))
      + [Content(User, [message])]
  }

  /** The conversation a request carries is its history followed by its
      message: dropping the last entry gives the history back. */
  lemma TutorContentsHistory(history: seq<Turn>, message: string)
    ensures var r := TutorContents(history, message);
            forall i :: 0 <= i < |r| - 1 ==> Turn(r[i].role, r[i].parts[0]) == history[i]
  {
  }

  /** `response.text || fallback`: the text when there is some, else the
      fallback; never empty for a non-empty fallback. */
  function TextOr(text: Option<string>, fallback: string): (r: string)
    ensures text.Some? && text.value != [] ==> r == text.value
    ensures text.None? || text.value == [] ==> r == fallback
    ensures fallback != [] ==> r != []
  {
    if text.Some? && text.value != [] then text.value else fallback
  }

  /** What `getTutorResponse` resolves to, given the response text. */
  function TutorReply(text: Option<string>): (r: string)
    ensures r != []
    ensures text.Some? && text.value != [] ==> r == text.value
  {
    TextOr(text, TutorFallback)
  }

  // ---------------------------------------------------------------------
  // explainMistake

  const ExplainFallback := "Il semble y avoir une erreur de calcul. Reprends les étapes doucement !"

  // The fixed text of the remediation prompt, around its four inputs.
  const PromptLevel := "L'élève (niveau "
  const PromptAnswer := ") a répondu \""
  const PromptQuestion := "\" à la question \""
  const PromptExpected := "\". La réponse correcte est \""
  const PromptTask := "\". \n  Explique pourquoi sa réponse est probablement fausse et quels sont les pièges classiques associés à ce type de question. Sois encourageant."

  /** The remediation prompt. */
  function ExplainPrompt(level: string, question: string, correctAnswer: string, userAnswer: string): string {
    PromptLevel + level + PromptAnswer + userAnswer + PromptQuestion + question + PromptExpected + correctAnswer + PromptTask
  }

  /** Each of the four inputs of a nine-piece text occurs in it. */
  lemma ContainsInputs(a: string, x: string, b: string, y: string, c: string, z: string, d: string, w: string, e: string)
    ensures var t := a + x + b + y + c + z + d + w + e;
            Contains(t, x) && Contains(t, y) && Contains(t, z) && Contains(t, w)
  {
    var t := a + x + b + y + c + z + d + w + e;
    assert OccursAt(t, x, |a|) by { assert t[|a|..|a| + |x|] == x; }
    assert OccursAt(t, y, |a + x + b|) by { assert t[|a + x + b|..|a + x + b| + |y|] == y; }
    assert OccursAt(t, z, |a + x + b + y + c|) by { assert t[|a + x + b + y + c|..|a + x + b + y + c| + |z|] == z; }
    assert OccursAt(t, w, |a + x + b + y + c + z + d|) by { assert t[|a + x + b + y + c + z + d|..|a + x + b + y + c + z + d| + |w|] == w; }
  }

  /** The prompt carries the level, the student's answer, the question and
      the expected answer. */
  lemma ExplainPromptEmbeds(level: string, question: string, correctAnswer: string, userAnswer: string)
    ensures var p := ExplainPrompt(level, question, correctAnswer, userAnswer);
            Contains(p, level) && Contains(p, userAnswer) && Contains(p, question) && Contains(p, correctAnswer)
  {
    ContainsInputs(PromptLevel, level, PromptAnswer, userAnswer, PromptQuestion, question, PromptExpected, correctAnswer, PromptTask);
  }

  /** What `explainMistake` resolves to, given the response text. */
  function ExplainReply(text: Option<string>): (r: string)
    ensures r != []
    ensures text.Some? && text.value != [] ==> r == text.value
  {
    TextOr(text, ExplainFallback)
  }

  // ---------------------------------------------------------------------
  // scanProblem

  /** A parsed JSON value. Numbers are integers here. */
  datatype Json =
    | JNull
    | JBool(b: bool)
    | JNumber(n: int)
    | JString(s: string)
    | JArray(items: seq<Json>)
    | JObject(fields: seq<(string, Json)>)

  /** JavaScript truthiness of a parsed value. */
  predicate Truthy(j: Json) {
    match j
    case JNull => false
    case JBool(b) => b
    case JNumber(n) => n != 0
    case JString(s) => s != []
    case JArray(_) => true
    case JObject(_) => true
  }

  /** `data[key]` on a value that is not `null`: the last binding of the key
      in an object (later duplicates win in `JSON.parse`); `undefined`
      (`None`) for a missing key and for the other kinds of value, none of
      which has a `hint` or `formulas` property. */
  function Property(j: Json, key: string): (r: Option<Json>)
    ensures r.Some? ==> j.JObject? && exists i :: 0 <= i < |j.fields| && j.fields[i] == (key, r.value)
    ensures r.Some? ==> exists i :: 0 <= i < |j.fields| && j.fields[i] == (key, r.value) &&
                          forall k :: i < k < |j.fields| ==> j.fields[k].0 != key
    ensures j.JObject? && (exists i :: 0 <= i < |j.fields| && j.fields[i].0 == key) ==> r.Some?
    decreases if j.JObject? then |j.fields| else 0
  {
    if !j.JObject? || j.fields == [] then None
    else
      var last := j.fields[|j.fields| - 1];
      if last.0 == key then Some(last.1)
      else
        var r := Property(JObject(j.fields[..|j.fields| - 1]), key);
        assert forall i :: 0 <= i < |j.fields| - 1 ==> j.fields[..|j.fields| - 1][i] == j.fields[i];
        r
  }

  /** The last binding wins. */
  lemma PropertyLastWins(fields: seq<(string, Json)>, key: string, v: Json)
    ensures Property(JObject(fields + [(key, v)]), key) == Some(v)
  {
  }

  /** What `scanProblem` returns. */
  datatype ScanResult = ScanResult(hint: Json, formulas: seq<Json>)

  const DefaultHint := "Regarde bien l'énoncé pour identifier la notion clé."
  const UnreadableHint := "Je n'ai pas pu lire l'image correctement."

  /** The result when anything in the `try` throws. */
  const Unreadable := ScanResult(JString(UnreadableHint), [])

  /** `scanProblem` after the SDK call: an empty or missing text is read as
      `'{}'`; `parse` is `JSON.parse` (`None` when it throws); reading a
      property of `null` throws too. A falsy hint gives the default hint and a
      `formulas` that is not an array gives no formulas. */
  function ScanProblem(text: Option<string>, parse: string -> Option<Json>): (r: ScanResult)
    ensures Truthy(r.hint)
  {
    var source := TextOr(text, "{}");
    match parse(source)
    case None => Unreadable
    case Some(data) =>
      if data.JNull? then Unreadable
      else
        var hint := Property(data, "hint");
        var formulas := Property(data, "formulas");
        ScanResult(
          if hint.Some? && Truthy(hint.value) then hint.value else JString(DefaultHint),
          if formulas.Some? && formulas.value.JArray? then formulas.value.items else [])
  }

  /** A well-formed answer is passed through unchanged. */
  lemma ScanPassesAnswerThrough(text: string, parse: string -> Option<Json>, hint: string, formulas: seq<Json>)
    requires text != [] && parse(text) == Some(JObject([("hint", JString(hint)), ("formulas", JArray(formulas))]))
    requires hint != []
    ensures ScanProblem(Some(text), parse) == ScanResult(JString(hint), formulas)
  {
    var data := JObject([("hint", JString(hint)), ("formulas", JArray(formulas))]);
    assert "formulas" != "hint" by { assert |"formulas"| != |"hint"|; }
    assert Property(JObject([("hint", JString(hint))]), "hint") == Some(JString(hint));
    assert Property(data, "hint") == Some(JString(hint));
    assert Property(data, "formulas") == Some(JArray(formulas));
  }

  /** No text at all reads as an empty object: the default hint, no formulas. */
  lemma ScanOfNoText(text: Option<string>, parse: string -> Option<Json>)
    requires text.None? || text.value == []
    requires parse("{}") == Some(JObject([]))
    ensures ScanProblem(text, parse) == ScanResult(JString(DefaultHint), [])
  {
  }

  /** Text that does not parse gives the "could not read" result, and so
      does text that parses to `null`, whose `hint` property throws. */
  lemma ScanOfGarbage(text: Option<string>, parse: string -> Option<Json>)
    requires parse(TextOr(text, "{}")).None? || parse(TextOr(text, "{}")) == Some(JNull)
    ensures ScanProblem(text, parse) == Unreadable
  {
  }

  /** A falsy or missing hint is replaced, and formulas are kept only when
      they form an array. */
  lemma ScanNormalises(text: Option<string>, parse: string -> Option<Json>, data: Json)
    requires parse(TextOr(text, "{}")) == Some(data) && !data.JNull?
    ensures var r := ScanProblem(text, parse);
            && (Property(data, "hint").None? || !Truthy(Property(data, "hint").value) ==> r.hint == JString(DefaultHint))
            && (Property(data, "hint").Some? && Truthy(Property(data, "hint").value) ==> r.hint == Property(data, "hint").value)
            && (Property(data, "formulas").Some? && Property(data, "formulas").value.JArray? ==>
                  r.formulas == Property(data, "formulas").value.items)
            && (Property(data, "formulas").None? || !Property(data, "formulas").value.JArray? ==> r.formulas == [])
  {
  }

  /** The decimal digits of `n`. */
  function NatText(n: nat): (r: string)
    ensures r != [] && forall i :: 0 <= i < |r| ==> '0' <= r[i] <= '9'
  {
    if n < 10 then [('0' as int + n) as char]
    else NatText(n / 10) + [('0' as int + n % 10) as char]
  }

  /** Reading decimal digits back. */
  function DigitsValue(s: string): int {
    if s == [] then 0 else DigitsValue(s[..|s| - 1]) * 10 + (s[|s| - 1] as int - '0' as int)
  }

  lemma {:induction false} NatTextRoundTrip(n: nat)
    ensures DigitsValue(NatText(n)) == n
  {
    if n >= 10 {
      NatTextRoundTrip(n / 10);
      var r := NatText(n);
      assert r[..|r| - 1] == NatText(n / 10);
    }
  }

  /** An object with an own `toString` key. Its value, parsed from JSON, is
      never callable, so converting the object to a string falls back to
      `valueOf`, which gives the object back, and the conversion throws a
      `TypeError`. */
  predicate OwnsToString(j: Json) {
    j.JObject? && exists i :: 0 <= i < |j.fields| && j.fields[i].0 == "toString"
  }

  /** `String(x)` on a parsed value, as a template literal shows it, or
      `None` when the conversion throws. Array elements are joined with `,`,
      and those that are `null` show as nothing. */
  function Display(j: Json): (r: Option<string>)
    ensures r.None? ==> j.JArray? || OwnsToString(j)
    ensures OwnsToString(j) ==> r.None?
    decreases j
  {
    match j
    case JNull => Some("null")
    case JBool(b) => Some(if b then "true" else "false")
    case JNumber(n) => Some(if n < 0 then "-" + NatText(-n) else NatText(n))
    case JString(s) => Some(s)
    case JArray(items) =>
      var parts := seq(|items|, i requires 0 <= i < |items| => if items[i].JNull? then Some("") else Display(items[i]));
      if exists i :: 0 <= i < |parts| && parts[i].None? then None
      else Some(Join(seq(|parts|, i requires 0 <= i < |parts| => parts[i].value), ','))
    case JObject(fields) =>
      if OwnsToString(j) then None else Some("[object Object]")
  }

  /** A string shows as itself, and a number as its decimal digits. */
  lemma DisplayText(s: string, n: nat)
    ensures Display(JString(s)) == Some(s)
    ensures Display(JNumber(n)).Some? && DigitsValue(Display(JNumber(n)).value) == n
  {
    NatTextRoundTrip(n);
  }

  /** An array throws exactly when one of its elements that is not `null`
      throws; `null` elements never do. */
  lemma DisplayArrayThrows(items: seq<Json>)
    ensures Display(JArray(items)).None? <==>
              exists i :: 0 <= i < |items| && !items[i].JNull? && Display(items[i]).None?
  {
    var parts := seq(|items|, i requires 0 <= i < |items| => if items[i].JNull? then Some("") else Display(items[i]));
    if exists i :: 0 <= i < |items| && !items[i].JNull? && Display(items[i]).None? {
      var i :| 0 <= i < |items| && !items[i].JNull? && Display(items[i]).None?;
      assert parts[i].None?;
    }
  }

  // ---------------------------------------------------------------------
  // generateLessonAudio

  /** The optional chain `candidates?.[0]?.content?.parts?.[0]?.inlineData?.data`. */
  datatype InlineData = InlineData(data: Option<string>)
  datatype Part = Part(inlineData: Option<InlineData>)
  datatype CandidateContent = CandidateContent(parts: Option<seq<Part>>)
  datatype Candidate = Candidate(content: Option<CandidateContent>)
  datatype AudioResponse = AudioResponse(candidates: Option<seq<Candidate>>)

  /** The audio of the first part of the first candidate, if every link of the
      chain is there. */
  function FirstAudio(resp: AudioResponse): Option<string> {
    if resp.candidates.None? || resp.candidates.value == [] then None
    else
      var c := resp.candidates.value[0];
      if c.content.None? || c.content.value.parts.None? || c.content.value.parts.value == [] then None
      else
        var p := c.content.value.parts.value[0];
        if p.inlineData.None? then None else p.inlineData.value.data
  }

  /** `generateLessonAudio`: the audio data, `null` when it is missing or
      empty, and `null` when the call throws. */
  function LessonAudio(outcome: Call<AudioResponse>): (r: Option<string>)
    ensures r.Some? ==> r.value != [] && outcome.Ok? && FirstAudio(outcome.value) == r
    ensures outcome.Err? ==> r.None?
  {
    match outcome
    case Err => None
    case Ok(resp) =>
      var data := FirstAudio(resp);
      if data.Some? && data.value != [] then data else None
  }

  /** Audio present in the first part of the first candidate is returned. */
  lemma LessonAudioFound(data: string, rest: seq<Candidate>, parts: seq<Part>)
    requires data != []
    ensures LessonAudio(Ok(AudioResponse(Some([Candidate(Some(CandidateContent(Some(
              [Part(Some(InlineData(Some(data))))] + parts))))] + rest)))) == Some(data)
  {
  }
}
