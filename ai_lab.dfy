/** The tutor chat page (pages/AILab.tsx): a message log that only grows,
    a send that waits for the tutor's reply, and a photo scan that posts a
    hint with the useful formulas. Timestamps (`Date.now()`) are inputs. */
module AILab {
  import opened Outcomes
  import opened Text
  import opened Types
  import GeminiService

  const Greeting := "Salut ! Je suis ton tuteur MathPech. Quel exercice te pose problème aujourd'hui ? Tu peux m'écrire ou me scanner ton énoncé ! 📐"
  const SendFallback := "Oups, je n'ai pas pu traiter ta demande. Réessaie !"
  const ScanApology := "Désolé, je n'ai pas pu analyser cette image. Assure-toi que l'énoncé est bien lisible."

  // The fixed lines of a scan message.
  const ScanIntro := "D'après ton scan, voici un indice pour t'aider :"
  const FormulaHeading := "**Formules utiles :**"

  /** One formula as a list line, in inline-math delimiters. */
  function FormulaLine(f: string): string {
    "- $" + f + "$"
  }

  function FormulaLines(formulas: seq<string>): (r: seq<string>)
    ensures |r| == |formulas|
    ensures forall i :: 0 <= i < |formulas| ==> r[i] == FormulaLine(formulas[i])
  {
    seq(|formulas|, i requires 0 <= i < |formulas| => FormulaLine(formulas[i]))
  }

  /** The message posted for a scan: the intro, a blank line, the hint, a
      blank line, the heading, then one line per formula. */
  function ScanMessage(hint: string, formulas: seq<string>): string {
    ScanIntro + "\n\n" + hint + "\n\n" + FormulaHeading + "\n" + Join(FormulaLines(formulas), '\n')
  }

  /** The formula lines survive the joining: when no formula spans several
      lines, splitting the list part at line breaks gives one `- $f$` line
      per formula, in order. */
  lemma FormulaLinesRecoverable(formulas: seq<string>)
    requires formulas != []
    requires forall i :: 0 <= i < |formulas| ==> '\n' !in formulas[i]
    ensures Split(Join(FormulaLines(formulas), '\n'), '\n') == FormulaLines(formulas)
  {
    var lines := FormulaLines(formulas);
    forall i | 0 <= i < |lines|
      ensures '\n' !in lines[i]
    {
      assert lines[i] == "- $" + formulas[i] + "$";
    }
    SplitJoin(lines, '\n');
  }

  /** Text found in `rest` is still found after a prefix is put before it. */
  lemma ContainsAfterPrefix(pre: string, rest: string, sub: string)
    requires Contains(rest, sub)
    ensures Contains(pre + rest, sub)
  {
    var k :| 0 <= k <= |rest| - |sub| && OccursAt(rest, sub, k);
    assert (pre + rest)[|pre| + k..|pre| + k + |sub|] == rest[k..k + |sub|];
    assert OccursAt(pre + rest, sub, |pre| + k);
  }

  /** Every part of a join occurs in it. */
  lemma {:induction false} JoinContainsParts(parts: seq<string>, sep: char, i: nat)
    requires i < |parts|
    ensures Contains(Join(parts, sep), parts[i])
  {
    if |parts| == 1 {
      ContainsInfix([], parts[0], []);
      assert [] + parts[0] + [] == parts[0];
    } else if i == 0 {
      ContainsInfix([], parts[0], [sep] + Join(parts[1..], sep));
      assert Join(parts, sep) == [] + parts[0] + ([sep] + Join(parts[1..], sep));
    } else {
      JoinContainsParts(parts[1..], sep, i - 1);
      ContainsAfterPrefix(parts[0] + [sep], Join(parts[1..], sep), parts[i]);
    }
  }

  /** A scan message shows the hint and a `- $f$` line for every formula. */
  lemma ScanMessageShowsAll(hint: string, formulas: seq<string>, i: nat)
    requires i < |formulas|
    ensures Contains(ScanMessage(hint, formulas), hint)
    ensures Contains(ScanMessage(hint, formulas), FormulaLine(formulas[i]))
  {
    var j := Join(FormulaLines(formulas), '\n');
    var tail := "\n\n" + FormulaHeading + "\n" + j;
    assert ScanMessage(hint, formulas) == (ScanIntro + "\n\n") + hint + tail;
    ContainsInfix(ScanIntro + "\n\n", hint, tail);
    JoinContainsParts(FormulaLines(formulas), '\n', i);
    ContainsAfterPrefix(ScanIntro + "\n\n" + hint + "\n\n" + FormulaHeading + "\n", j, FormulaLine(formulas[i]));
  }

  /** The log entry a scan outcome gives; the scan result's values appear as
      template literals show them. A value whose conversion to a string
      throws lands in the `catch`, like a failed call. */
  function ScanOutcomeText(outcome: Call<GeminiService.ScanResult>): string {
    match outcome
    case Ok(r) =>
      var hint := GeminiService.Display(r.hint);
      var lines := seq(|r.formulas|, i requires 0 <= i < |r.formulas| => GeminiService.Display(r.formulas[i]));
      if hint.None? || exists i :: 0 <= i < |lines| && lines[i].None? then ScanApology
      else ScanMessage(hint.value, seq(|lines|, i requires 0 <= i < |lines| => lines[i].value))
    case Err => ScanApology
  }

  /** A scan result with string values shows its hint and every formula. */
  lemma ScanOutcomeShowsStrings(hint: string, formulas: seq<string>)
    ensures ScanOutcomeText(Ok(GeminiService.ScanResult(GeminiService.JString(hint),
              seq(|formulas|, i requires 0 <= i < |formulas| => GeminiService.JString(formulas[i])))))
            == ScanMessage(hint, formulas)
  {
    var js := seq(|formulas|, i requires 0 <= i < |formulas| => GeminiService.JString(formulas[i]));
    var r := GeminiService.ScanResult(GeminiService.JString(hint), js);
    var lines := seq(|r.formulas|, i requires 0 <= i < |r.formulas| => GeminiService.Display(r.formulas[i]));
    assert GeminiService.Display(r.hint) == Some(hint);
    forall i | 0 <= i < |lines| ensures lines[i] == Some(formulas[i]) {
      assert js[i] == GeminiService.JString(formulas[i]);
    }
    assert !exists i :: 0 <= i < |lines| && lines[i].None?;
    var texts := seq(|lines|, i requires 0 <= i < |lines| => lines[i].value);
    assert texts == formulas;
    assert ScanOutcomeText(Ok(r)) == ScanMessage(hint, texts);
  }

  /** A hint or a formula with an own `toString` key makes the template
      literal throw, so the apology is posted, as for a failed scan. */
  lemma ScanOutcomeThrows(r: GeminiService.ScanResult, i: nat)
    requires GeminiService.OwnsToString(r.hint) || (i < |r.formulas| && GeminiService.OwnsToString(r.formulas[i]))
    ensures ScanOutcomeText(Ok(r)) == ScanApology
  {
    var lines := seq(|r.formulas|, k requires 0 <= k < |r.formulas| => GeminiService.Display(r.formulas[k]));
    if !GeminiService.OwnsToString(r.hint) {
      assert lines[i].None?;
    }
  }

  /** One call to `getTutorResponse`, as the page makes it. */
  datatype TutorRequest = TutorRequest(level: Level, history: seq<GeminiService.Turn>, message: string)

  /** `messages.map(m => ({ role: m.role, text: m.text }))`. */
  function Turns(messages: seq<ChatMessage>): (r: seq<GeminiService.Turn>)
    ensures |r| == |messages|
    ensures forall i :: 0 <= i < |messages| ==> r[i] == GeminiService.Turn(messages[i].role, messages[i].text)
  {
    seq(|messages|, i requires 0 <= i < |messages| => GeminiService.Turn(messages[i].role, messages[i].text))
  }

  class TutorChat {
    const userLevel: Level
    var messages: seq<ChatMessage>
    var inputValue: string
    var isLoading: bool
    var isScanning: bool
    /** Every tutor call made, in order. */
    var requests: seq<TutorRequest>

    ghost predicate Valid()
      reads this
    {
      |messages| >= 1 && messages[0].role == Model && messages[0].text == Greeting
    }

    /** The page opened at time `now`: the greeting alone. */
    constructor(level: Level, now: int)
      ensures Valid()
      ensures userLevel == level
      ensures messages == [ChatMessage(Model, Greeting, now)]
      ensures inputValue == "" && !isLoading && !isScanning && requests == []
    {
      userLevel := level;
      messages := [ChatMessage(Model, Greeting, now)];
      inputValue := "";
      isLoading := false;
      isScanning := false;
      requests := [];
    }

    method Type(text: string)
      requires Valid()
      modifies this
      ensures Valid()
      ensures inputValue == text
      ensures messages == old(messages) && isLoading == old(isLoading) && isScanning == old(isScanning)
      ensures requests == old(requests)
    {
      inputValue := text;
    }

    /** `handleSend` up to the `await` (Enter or the send button): ignored
        while the input is blank or a reply is awaited; otherwise the input is
        posted as it stands, the field cleared, and the tutor asked with the
        log as it was before this message. */
    method HandleSend(now: int)
      requires Valid()
      modifies this
      ensures Valid()
      ensures IsBlank(old(inputValue)) || old(isLoading) ==>
                messages == old(messages) && inputValue == old(inputValue) && isLoading == old(isLoading) &&
                requests == old(requests)
      ensures !(IsBlank(old(inputValue)) || old(isLoading)) ==>
                && messages == old(messages) + [ChatMessage(User, old(inputValue), now)]
                && inputValue == "" && isLoading
                && requests == old(requests) + [TutorRequest(userLevel, Turns(old(messages)), old(inputValue))]
      ensures isScanning == old(isScanning)
    {
      if IsBlank(inputValue) || isLoading {
        return;
      }
      requests := requests + [TutorRequest(userLevel, Turns(messages), inputValue)];
      messages := messages + [ChatMessage(User, inputValue, now)];
      inputValue := "";
      isLoading := true;
    }

    /** `handleSend` after the `await`: the reply, or the fallback when the
        call threw, and loading ends (`finally`). */
    method ReplyArrives(outcome: Call<string>, now: int)
      requires Valid() && isLoading
      modifies this
      ensures Valid()
      ensures messages == old(messages) + [ChatMessage(Model, if outcome.Ok? then outcome.value else SendFallback, now)]
      ensures !isLoading
      ensures inputValue == old(inputValue) && isScanning == old(isScanning) && requests == old(requests)
    {
      messages := messages + [ChatMessage(Model, if outcome.Ok? then outcome.value else SendFallback, now)];
      isLoading := false;
    }

    /** A photo chosen through the camera button, which is disabled while a
        scan or a reply is under way; cancelling the picker gives no file. */
    method ChooseFile(chosen: bool)
      requires Valid()
      modifies this
      ensures Valid()
      ensures isScanning == (old(isScanning) || (chosen && !old(isLoading)))
      ensures messages == old(messages) && inputValue == old(inputValue) && isLoading == old(isLoading)
      ensures requests == old(requests)
    {
      if chosen && !isScanning && !isLoading {
        isScanning := true;
      }
    }

    /** The scan's outcome: the hint-and-formulas message, or the apology when
        the call threw; scanning ends (`finally`). */
    method ScanArrives(outcome: Call<GeminiService.ScanResult>, now: int)
      requires Valid() && isScanning
      modifies this
      ensures Valid()
      ensures messages == old(messages) + [ChatMessage(Model, ScanOutcomeText(outcome), now)]
      ensures !isScanning
      ensures inputValue == old(inputValue) && isLoading == old(isLoading) && requests == old(requests)
    {
      messages := messages + [ChatMessage(Model, ScanOutcomeText(outcome), now)];
      isScanning := false;
    }
  }

  /** The log only grows: each step keeps every earlier message in place. */
  predicate Extends(before: seq<ChatMessage>, after: seq<ChatMessage>) {
    |before| <= |after| && after[..|before|] == before
  }

  lemma ExtendsAppend(before: seq<ChatMessage>, m: ChatMessage)
    ensures Extends(before, before + [m])
  {
  }

  lemma ExtendsTransitive(a: seq<ChatMessage>, b: seq<ChatMessage>, c: seq<ChatMessage>)
    requires Extends(a, b) && Extends(b, c)
    ensures Extends(a, c)
  {
    assert c[..|a|] == c[..|b|][..|a|];
  }

  /** A send followed by its reply adds exactly the question and the answer,
      and the tutor was asked with the log as it stood before the question. */
  method SendAndReply(chat: TutorChat, reply: Call<string>, t0: int, t1: int)
    requires chat.Valid() && !chat.isLoading && !IsBlank(chat.inputValue)
    modifies chat
    ensures chat.Valid() && !chat.isLoading
    ensures chat.messages == old(chat.messages) +
              [ChatMessage(User, old(chat.inputValue), t0),
               ChatMessage(Model, if reply.Ok? then reply.value else SendFallback, t1)]
    ensures chat.requests == old(chat.requests) + [TutorRequest(chat.userLevel, Turns(old(chat.messages)), old(chat.inputValue))]
  {
    chat.HandleSend(t0);
    chat.ReplyArrives(reply, t1);
  }
}
