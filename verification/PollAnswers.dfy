/** A poll's answers on both sides: the web form that builds them and the server that validates them. */
module PollAnswers {
  import opened Common

  datatype Kind = Text | SingleChoice | MultiChoice | Unknown(name: string)

  datatype Choice = Choice(id: string, caption: string)

  datatype Question = Question(id: string, prompt: string, kind: Kind, options: seq<Choice>, required: bool)

  datatype Answer = Answer(questionId: string, text: string, choiceIds: seq<string>)

  datatype Error =
    | NoQuestions
    | EmptyId
    | DuplicateId(id: string)
    | BlankPrompt(id: string)
    | NeedsOptions(id: string)
    | EmptyOptionId(id: string)
    | DuplicateOption(id: string, option: string)
    | UnknownKind(id: string)
    | UnknownQuestion(id: string)
    | DuplicateAnswer(id: string)
    | ChoicesNotAllowed(id: string)
    | TextNotAllowed(id: string)
    | OneChoiceOnly(id: string)
    | NotAnOption(id: string, option: string)
    | Required(id: string)

  // ---- ValidateQuestions ----

  ghost predicate DistinctOptions(options: seq<Choice>) {
    forall i, j :: 0 <= i < j < |options| ==> options[i].id != options[j].id
  }

  ghost predicate QuestionOk(q: Question) {
    && !IsBlank(q.id) && !IsBlank(q.prompt) && !q.kind.Unknown?
    && (q.kind != Text ==>
          && q.options != []
          && (forall i :: 0 <= i < |q.options| ==> !IsBlank(q.options[i].id))
          && DistinctOptions(q.options))
  }

  ghost predicate DistinctIds(questions: seq<Question>) {
    forall i, j :: 0 <= i < j < |questions| ==> questions[i].id != questions[j].id
  }

  /** What ValidateQuestions accepts. */
  ghost predicate QuestionsOk(questions: seq<Question>) {
    questions != [] && DistinctIds(questions) && forall i :: 0 <= i < |questions| ==> QuestionOk(questions[i])
  }

  /** One question is at fault in the way the error says. */
  ghost predicate Faulty(q: Question, e: Error) {
    match e
    case EmptyId => IsBlank(q.id)
    case BlankPrompt(id) => q.id == id && IsBlank(q.prompt)
    case NeedsOptions(id) => q.id == id && q.kind != Text && q.options == []
    case EmptyOptionId(id) => q.id == id && exists o :: o in q.options && IsBlank(o.id)
    case DuplicateOption(id, option) =>
      q.id == id && exists i, j :: 0 <= i < j < |q.options| && q.options[i].id == q.options[j].id == option
    case UnknownKind(id) => q.id == id && q.kind.Unknown?
    case _ => false
  }

  /** The error names a fault the question list has. */
  ghost predicate Explains(questions: seq<Question>, e: Error) {
    || (e == NoQuestions && questions == [])
    || (exists i, j :: 0 <= i < j < |questions| && questions[i].id == questions[j].id
                       && e == DuplicateId(questions[i].id))
    || (exists q :: q in questions && Faulty(q, e))
  }

  /** Option i is the first at fault, and the error is the first of its faults. */
  ghost predicate FirstOptionFault(q: Question, i: nat, e: Error) {
    && i < |q.options|
    && (forall j :: 0 <= j < i ==> !IsBlank(q.options[j].id)) && DistinctOptions(q.options[..i])
    && if IsBlank(q.options[i].id) then e == EmptyOptionId(q.id)
       else (exists j :: 0 <= j < i && q.options[j].id == q.options[i].id)
            && e == DuplicateOption(q.id, q.options[i].id)
  }

  /** Question i is the first at fault, and the error is the first of its faults. */
  ghost predicate FirstFault(questions: seq<Question>, i: nat, e: Error) {
    && i < |questions|
    && (forall j :: 0 <= j < i ==> QuestionOk(questions[j])) && DistinctIds(questions[..i])
    && var q := questions[i];
       if IsBlank(q.id) then e == EmptyId
       else if exists j :: 0 <= j < i && questions[j].id == q.id then e == DuplicateId(q.id)
       else if IsBlank(q.prompt) then e == BlankPrompt(q.id)
       else if q.kind.Unknown? then e == UnknownKind(q.id)
       else q.kind != Text
            && if q.options == [] then e == NeedsOptions(q.id) else exists o: nat :: FirstOptionFault(q, o, e)
  }

  method ValidateOptions(q: Question) returns (e: Option<Error>)
    ensures e.None? <==> (forall i :: 0 <= i < |q.options| ==> !IsBlank(q.options[i].id)) && DistinctOptions(q.options)
    ensures e.Some? ==> Faulty(q, e.value)
    ensures e.Some? ==> exists i: nat :: FirstOptionFault(q, i, e.value)
  {
    var optSeen: set<string> := {};
    for i := 0 to |q.options|
      invariant optSeen == set k | 0 <= k < i :: q.options[k].id
      invariant forall k :: 0 <= k < i ==> !IsBlank(q.options[k].id)
      invariant DistinctOptions(q.options[..i])
    {
      var o := q.options[i];
      if IsBlank(o.id) {
        assert FirstOptionFault(q, i, EmptyOptionId(q.id));
        return Some(EmptyOptionId(q.id));
      }
      if o.id in optSeen {
        assert FirstOptionFault(q, i, DuplicateOption(q.id, o.id));
        return Some(DuplicateOption(q.id, o.id));
      }
      optSeen := optSeen + {o.id};
    }
    assert q.options[..|q.options|] == q.options;
    return None;
  }

  method ValidateQuestions(questions: seq<Question>) returns (e: Option<Error>)
    ensures e.None? <==> QuestionsOk(questions)
    ensures e.Some? ==> Explains(questions, e.value)
    ensures e.Some? ==> if questions == [] then e == Some(NoQuestions)
                        else exists i: nat :: FirstFault(questions, i, e.value)
  {
    if |questions| == 0 { return Some(NoQuestions); }
    var seen: set<string> := {};
    for i := 0 to |questions|
      invariant seen == set k | 0 <= k < i :: questions[k].id
      invariant DistinctIds(questions[..i])
      invariant forall k :: 0 <= k < i ==> QuestionOk(questions[k])
    {
      var q := questions[i];
      assert q in questions;
      if IsBlank(q.id) {
        assert Faulty(q, EmptyId) && FirstFault(questions, i, EmptyId);
        return Some(EmptyId);
      }
      if q.id in seen {
        assert FirstFault(questions, i, DuplicateId(q.id));
        return Some(DuplicateId(q.id));
      }
      seen := seen + {q.id};
      if IsBlank(q.prompt) {
        assert Faulty(q, BlankPrompt(q.id)) && FirstFault(questions, i, BlankPrompt(q.id));
        return Some(BlankPrompt(q.id));
      }
      match q.kind
      case Text =>
      case Unknown(_) =>
        assert Faulty(q, UnknownKind(q.id)) && FirstFault(questions, i, UnknownKind(q.id));
        return Some(UnknownKind(q.id));
      case _ =>
        if |q.options| == 0 {
          assert Faulty(q, NeedsOptions(q.id)) && FirstFault(questions, i, NeedsOptions(q.id));
          return Some(NeedsOptions(q.id));
        }
        e := ValidateOptions(q);
        if e.Some? {
          assert FirstFault(questions, i, e.value);
          return;
        }
    }
    assert questions[..|questions|] == questions;
    return None;
  }

  // ---- ValidateAnswers ----

  /** The question an id names: the last one of that id. */
  function ById(questions: seq<Question>): map<string, Question> {
    if questions == [] then map[]
    else
      var last := questions[|questions| - 1];
      ById(questions[..|questions| - 1])[last.id := last]
  }

  lemma {:induction false} ByIdIsLast(questions: seq<Question>, id: string) returns (i: nat)
    ensures id in ById(questions) <==> exists q :: q in questions && q.id == id
    ensures id in ById(questions) ==>
              && i < |questions| && ById(questions)[id] == questions[i] && questions[i].id == id
              && forall j :: i < j < |questions| ==> questions[j].id != id
  {
    i := 0;
    if questions != [] {
      var n := |questions| - 1;
      var init, last := questions[..n], questions[n];
      assert questions == init + [last] && last in questions;
      i := ByIdIsLast(init, id);
      if last.id == id { i := n; }
      assert forall j :: 0 <= j < n ==> init[j] == questions[j];
    }
  }

  function Options(q: Question): set<string> {
    set o | o in q.options :: o.id
  }

  function ChoicesError(q: Question, chosen: seq<string>): Option<Error> {
    if chosen == [] then None
    else if chosen[0] !in Options(q) then Some(NotAnOption(q.id, chosen[0]))
    else ChoicesError(q, chosen[1..])
  }

  /** What is wrong with one answer to its question. */
  function AnswerError(q: Question, a: Answer): Option<Error> {
    match q.kind
    case Text => if a.choiceIds != [] then Some(ChoicesNotAllowed(q.id)) else None
    case Unknown(_) => Some(UnknownKind(q.id))
    case _ =>
      if !IsBlank(a.text) then Some(TextNotAllowed(q.id))
      else if q.kind == SingleChoice && |a.choiceIds| > 1 then Some(OneChoiceOnly(q.id))
      else ChoicesError(q, a.choiceIds)
  }

  /** The first answer error, `answered` being the questions already answered. */
  function AnswersError(byId: map<string, Question>, answers: seq<Answer>, answered: set<string>): Option<Error> {
    if answers == [] then None
    else
      var a := answers[0];
      if a.questionId !in byId then Some(UnknownQuestion(a.questionId))
      else if a.questionId in answered then Some(DuplicateAnswer(a.questionId))
      else if AnswerError(byId[a.questionId], a).Some? then AnswerError(byId[a.questionId], a)
      else AnswersError(byId, answers[1..], answered + {a.questionId})
  }

  /** Whether the first answer to a question says something. */
  predicate Says(q: Question, answers: seq<Answer>) {
    if answers == [] then false
    else if answers[0].questionId != q.id then Says(q, answers[1..])
    else if q.kind == Text then !IsBlank(answers[0].text) else answers[0].choiceIds != []
  }

  function RequiredError(questions: seq<Question>, answers: seq<Answer>): Option<Error> {
    if questions == [] then None
    else if questions[0].required && !Says(questions[0], answers) then Some(Required(questions[0].id))
    else RequiredError(questions[1..], answers)
  }

  function Verdict(questions: seq<Question>, answers: seq<Answer>): Option<Error> {
    var e := AnswersError(ById(questions), answers, {});
    if e.Some? then e else RequiredError(questions, answers)
  }

  // ---- What the verdict means ----

  ghost predicate Fits(q: Question, a: Answer) {
    match q.kind
    case Text => a.choiceIds == []
    case Unknown(_) => false
    case _ =>
      && IsBlank(a.text)
      && (q.kind == SingleChoice ==> |a.choiceIds| <= 1)
      && forall c :: c in a.choiceIds ==> exists o :: o in q.options && o.id == c
  }

  predicate SaysSomething(q: Question, a: Answer) {
    a.questionId == q.id && if q.kind == Text then !IsBlank(a.text) else a.choiceIds != []
  }

  ghost predicate AnswersOk(questions: seq<Question>, answers: seq<Answer>) {
    && (forall a :: a in answers ==> a.questionId in ById(questions) && Fits(ById(questions)[a.questionId], a))
    && (forall i, j :: 0 <= i < j < |answers| ==> answers[i].questionId != answers[j].questionId)
    && (forall q :: q in questions && q.required ==> exists a :: a in answers && SaysSomething(q, a))
  }

  lemma {:induction false} ChoicesErrorMeans(q: Question, chosen: seq<string>)
    ensures ChoicesError(q, chosen).None? <==> forall c :: c in chosen ==> exists o :: o in q.options && o.id == c
  {
    if chosen != [] {
      ChoicesErrorMeans(q, chosen[1..]);
      assert chosen[0] in chosen;
      assert forall c :: c in chosen <==> c == chosen[0] || c in chosen[1..];
    }
  }

  lemma {:induction false} AnswersErrorMeans(byId: map<string, Question>, answers: seq<Answer>, answered: set<string>)
    ensures AnswersError(byId, answers, answered).None? <==>
            && (forall i :: 0 <= i < |answers| ==> answers[i].questionId in byId
                                                   && AnswerError(byId[answers[i].questionId], answers[i]).None?
                                                   && answers[i].questionId !in answered)
            && (forall i, j :: 0 <= i < j < |answers| ==> answers[i].questionId != answers[j].questionId)
    decreases |answers|
  {
    if answers != [] {
      hide AnswerError;
      var rest := answers[1..];
      AnswersErrorMeans(byId, rest, answered + {answers[0].questionId});
      assert forall i :: 1 <= i < |answers| ==> answers[i] == rest[i - 1];
      assert forall i :: 0 <= i < |rest| ==> rest[i] == answers[i + 1];
    }
  }

  lemma {:induction false} SaysMeans(q: Question, answers: seq<Answer>)
    requires forall i, j :: 0 <= i < j < |answers| ==> answers[i].questionId != answers[j].questionId
    ensures Says(q, answers) <==> exists a :: a in answers && SaysSomething(q, a)
  {
    if answers != [] {
      var a, rest := answers[0], answers[1..];
      assert a in answers && forall b :: b in answers <==> b == a || b in rest;
      SaysMeans(q, rest);
    }
  }

  lemma {:induction false} RequiredErrorMeans(questions: seq<Question>, answers: seq<Answer>)
    ensures RequiredError(questions, answers).None? <==>
            forall q :: q in questions && q.required ==> Says(q, answers)
  {
    if questions != [] {
      RequiredErrorMeans(questions[1..], answers);
      assert questions[0] in questions;
      assert forall q :: q in questions <==> q == questions[0] || q in questions[1..];
    }
  }

  /** A submission is accepted exactly when every answer fits a question of the poll, no question is answered twice and
      every required one is answered with something. */
  lemma AcceptedMeansComplete(questions: seq<Question>, answers: seq<Answer>)
    ensures Verdict(questions, answers).None? <==> AnswersOk(questions, answers)
  {
    AnswersErrorMeans(ById(questions), answers, {});
    RequiredErrorMeans(questions, answers);
    forall a | a in answers && a.questionId in ById(questions)
      ensures AnswerError(ById(questions)[a.questionId], a).None? <==> Fits(ById(questions)[a.questionId], a)
    {
      ChoicesErrorMeans(ById(questions)[a.questionId], a.choiceIds);
    }
    hide AnswerError, Fits, Says, SaysSomething, AnswersError, RequiredError;
    if forall i, j :: 0 <= i < j < |answers| ==> answers[i].questionId != answers[j].questionId {
      forall q | q in questions
        ensures Says(q, answers) <==> exists a :: a in answers && SaysSomething(q, a)
      {
        SaysMeans(q, answers);
      }
    }
  }

  /** An otherwise complete submission with a choiceless answer to a single-choice question is accepted exactly when
      that question is optional. */
  lemma ChoicelessAcceptedIffOptional(questions: seq<Question>, answers: seq<Answer>, k: nat, i: nat)
    requires DistinctIds(questions) && k < |questions| && questions[k].kind == SingleChoice
    requires i < |answers| && answers[i] == Answer(questions[k].id, "", [])
    requires forall a :: a in answers ==> a.questionId in ById(questions) && Fits(ById(questions)[a.questionId], a)
    requires forall x, y :: 0 <= x < y < |answers| ==> answers[x].questionId != answers[y].questionId
    requires forall q :: q in questions && q.required && q != questions[k] ==>
               exists a :: a in answers && SaysSomething(q, a)
    ensures Verdict(questions, answers).None? <==> !questions[k].required
  {
    AcceptedMeansComplete(questions, answers);
    var q := questions[k];
    assert q in questions;
    forall a | a in answers
      ensures !SaysSomething(q, a)
    {
      var j :| 0 <= j < |answers| && answers[j] == a;
    }
  }

  /** Such a submission: the poll's one question, optional, answered with no choice. */
  lemma ChoicelessAnswerAccepted(id: string, prompt: string, option: string) returns (questions: seq<Question>)
    requires !IsBlank(id) && !IsBlank(prompt) && !IsBlank(option)
    ensures QuestionsOk(questions) && |questions| == 1 && questions[0].kind == SingleChoice
    ensures Verdict(questions, [Answer(id, "", [])]) == None
  {
    var q := Question(id, prompt, SingleChoice, [Choice(option, "")], false);
    var a := Answer(id, "", []);
    questions := [q];
    assert QuestionOk(q) && IsBlank("");
    ByIdOfDistinct(questions, 0);
    assert forall x :: x in [a] ==> x == a;
    ChoicelessAcceptedIffOptional(questions, [a], 0, 0);
  }

  // ---- Which error ----

  ghost predicate IsOption(q: Question, id: string) {
    exists o :: o in q.options && o.id == id
  }

  /** Answer i is at fault in the way the error says, checked in the validator's order. */
  ghost predicate AnswerFaulty(questions: seq<Question>, answers: seq<Answer>, i: nat, e: Error)
    requires i < |answers|
  {
    var a := answers[i];
    if a.questionId !in ById(questions) then e == UnknownQuestion(a.questionId)
    else if exists j :: 0 <= j < i && answers[j].questionId == a.questionId then e == DuplicateAnswer(a.questionId)
    else
      var q := ById(questions)[a.questionId];
      if q.kind == Text then a.choiceIds != [] && e == ChoicesNotAllowed(q.id)
      else if q.kind.Unknown? then e == UnknownKind(q.id)
      else if !IsBlank(a.text) then e == TextNotAllowed(q.id)
      else if q.kind == SingleChoice && |a.choiceIds| > 1 then e == OneChoiceOnly(q.id)
      else exists c: nat ::
        && c < |a.choiceIds| && e == NotAnOption(q.id, a.choiceIds[c])
        && !IsOption(q, a.choiceIds[c]) && forall d :: 0 <= d < c ==> IsOption(q, a.choiceIds[d])
  }

  /** Nothing is wrong with the first i answers. */
  ghost predicate FitUpTo(questions: seq<Question>, answers: seq<Answer>, i: nat)
    requires i <= |answers|
  {
    && (forall j :: 0 <= j < i ==>
          answers[j].questionId in ById(questions) && Fits(ById(questions)[answers[j].questionId], answers[j]))
    && (forall j, k :: 0 <= j < k < i ==> answers[j].questionId != answers[k].questionId)
  }

  lemma {:induction false} ChoicesErrorIsFirst(q: Question, chosen: seq<string>) returns (c: nat)
    requires ChoicesError(q, chosen).Some?
    ensures c < |chosen| && ChoicesError(q, chosen) == Some(NotAnOption(q.id, chosen[c]))
    ensures !IsOption(q, chosen[c]) && forall d :: 0 <= d < c ==> IsOption(q, chosen[d])
  {
    if chosen[0] !in Options(q) {
      c := 0;
    } else {
      var c' := ChoicesErrorIsFirst(q, chosen[1..]);
      c := c' + 1;
      assert forall d :: 1 <= d < c ==> chosen[d] == chosen[1..][d - 1];
    }
  }

  lemma AnswerErrorIsFault(questions: seq<Question>, answers: seq<Answer>, i: nat, answered: set<string>)
    requires i < |answers| && answered == set j | 0 <= j < i :: answers[j].questionId
    ensures var a := answers[i];
            var e := if a.questionId !in ById(questions) then Some(UnknownQuestion(a.questionId))
                     else if a.questionId in answered then Some(DuplicateAnswer(a.questionId))
                     else AnswerError(ById(questions)[a.questionId], a);
            if e.Some? then AnswerFaulty(questions, answers, i, e.value)
            else a.questionId in ById(questions) && Fits(ById(questions)[a.questionId], a)
  {
    var a := answers[i];
    if a.questionId in ById(questions) {
      var q := ById(questions)[a.questionId];
      ChoicesErrorMeans(q, a.choiceIds);
      if ChoicesError(q, a.choiceIds).Some? { var c := ChoicesErrorIsFirst(q, a.choiceIds); }
    }
  }

  lemma {:induction false} AnswersErrorIsFirst(questions: seq<Question>, answers: seq<Answer>, i: nat,
                                               answered: set<string>)
      returns (k: nat)
    requires i <= |answers| && answered == (set j | 0 <= j < i :: answers[j].questionId)
    requires FitUpTo(questions, answers, i)
    ensures i <= k <= |answers| && FitUpTo(questions, answers, k)
    ensures AnswersError(ById(questions), answers[i..], answered).Some? <==> k < |answers|
    ensures k < |answers| ==>
              AnswerFaulty(questions, answers, k, AnswersError(ById(questions), answers[i..], answered).value)
    decreases |answers| - i
  {
    k := i;
    if i < |answers| {
      AnswerErrorIsFault(questions, answers, i, answered);
      var a := answers[i];
      assert answers[i..][0] == a && answers[i..][1..] == answers[i + 1..];
      hide AnswerError, AnswerFaulty, Fits, ById;
      if a.questionId in ById(questions) && a.questionId !in answered
         && AnswerError(ById(questions)[a.questionId], a).None? {
        assert answered + {a.questionId} == set j | 0 <= j < i + 1 :: answers[j].questionId;
        k := AnswersErrorIsFirst(questions, answers, i + 1, answered + {a.questionId});
      }
    }
  }

  lemma {:induction false} RequiredErrorIsFirst(questions: seq<Question>, answers: seq<Answer>) returns (k: nat)
    requires RequiredError(questions, answers).Some?
    ensures k < |questions| && RequiredError(questions, answers) == Some(Required(questions[k].id))
    ensures questions[k].required && !Says(questions[k], answers)
    ensures forall j :: 0 <= j < k && questions[j].required ==> Says(questions[j], answers)
  {
    hide Says;
    if questions[0].required && !Says(questions[0], answers) {
      k := 0;
    } else {
      var k' := RequiredErrorIsFirst(questions[1..], answers);
      k := k' + 1;
      assert forall j :: 1 <= j < k ==> questions[j] == questions[1..][j - 1];
    }
  }

  /** Which error a refused submission gets: that of the first answer at fault, and when none is, of the first required
      question that no answer says anything to. */
  lemma RefusalNamesTheFirstFault(questions: seq<Question>, answers: seq<Answer>) returns (k: nat)
    requires Verdict(questions, answers).Some?
    ensures var e := Verdict(questions, answers).value;
            if e.Required? then
              && FitUpTo(questions, answers, |answers|)
              && k < |questions| && questions[k].required && e == Required(questions[k].id)
              && (forall a :: a in answers ==> !SaysSomething(questions[k], a))
              && forall j :: 0 <= j < k && questions[j].required ==>
                   exists a :: a in answers && SaysSomething(questions[j], a)
            else k < |answers| && FitUpTo(questions, answers, k) && AnswerFaulty(questions, answers, k, e)
  {
    assert answers[0..] == answers;
    k := AnswersErrorIsFirst(questions, answers, 0, {});
    if k == |answers| {
      hide AnswerFaulty, SaysSomething, Says, ById, Fits, RequiredError;
      k := RequiredErrorIsFirst(questions, answers);
      SaysMeans(questions[k], answers);
      forall j | 0 <= j < k && questions[j].required
        ensures exists a :: a in answers && SaysSomething(questions[j], a)
      {
        SaysMeans(questions[j], answers);
      }
    } else {
      FaultIsNotRequired(questions, answers, k, Verdict(questions, answers).value);
    }
  }

  lemma FaultIsNotRequired(questions: seq<Question>, answers: seq<Answer>, k: nat, e: Error)
    requires k < |answers| && AnswerFaulty(questions, answers, k, e)
    ensures !e.Required?
  {
  }

  method OptionSet(q: Question) returns (opts: set<string>)
    ensures opts == Options(q)
  {
    opts := {};
    for i := 0 to |q.options|
      invariant opts == set o | o in q.options[..i] :: o.id
    {
      assert q.options[..i + 1] == q.options[..i] + [q.options[i]];
      opts := opts + {q.options[i].id};
    }
    assert q.options[..|q.options|] == q.options;
  }

  method RequireAnswered(q: Question, answers: seq<Answer>) returns (e: Option<Error>)
    ensures e == if Says(q, answers) then None else Some(Required(q.id))
  {
    assert answers[0..] == answers;
    for i := 0 to |answers|
      invariant Says(q, answers) == Says(q, answers[i..])
    {
      var a := answers[i];
      assert answers[i..][1..] == answers[i + 1..];
      if a.questionId != q.id { continue; }
      match q.kind {
        case Text => if IsBlank(a.text) { return Some(Required(q.id)); }
        case _ => if |a.choiceIds| == 0 { return Some(Required(q.id)); }
      }
      return None;
    }
    return Some(Required(q.id));
  }

  method CheckChoices(q: Question, chosen: seq<string>) returns (e: Option<Error>)
    ensures e == ChoicesError(q, chosen)
  {
    var opts := OptionSet(q);
    assert chosen[0..] == chosen;
    for i := 0 to |chosen|
      invariant ChoicesError(q, chosen) == ChoicesError(q, chosen[i..])
    {
      assert chosen[i..][1..] == chosen[i + 1..];
      if chosen[i] !in opts { return Some(NotAnOption(q.id, chosen[i])); }
    }
    return None;
  }

  method ValidateAnswers(questions: seq<Question>, answers: seq<Answer>) returns (e: Option<Error>)
    ensures e == Verdict(questions, answers)
  {
    var byId: map<string, Question> := map[];
    for i := 0 to |questions|
      invariant byId == ById(questions[..i])
    {
      assert questions[..i + 1][..i] == questions[..i];
      byId := byId[questions[i].id := questions[i]];
    }
    assert questions[..|questions|] == questions;
    var answered: set<string> := {};
    assert answers[0..] == answers;
    for i := 0 to |answers|
      invariant AnswersError(byId, answers, {}) == AnswersError(byId, answers[i..], answered)
    {
      var a := answers[i];
      assert answers[i..][1..] == answers[i + 1..];
      if a.questionId !in byId { return Some(UnknownQuestion(a.questionId)); }
      var q := byId[a.questionId];
      if a.questionId in answered { return Some(DuplicateAnswer(a.questionId)); }
      answered := answered + {a.questionId};
      match q.kind
      case Text => if |a.choiceIds| > 0 { return Some(ChoicesNotAllowed(q.id)); }
      case Unknown(_) => return Some(UnknownKind(q.id));
      case _ =>
        if !IsBlank(a.text) { return Some(TextNotAllowed(q.id)); }
        if q.kind == SingleChoice && |a.choiceIds| > 1 { return Some(OneChoiceOnly(q.id)); }
        e := CheckChoices(q, a.choiceIds);
        if e.Some? { return; }
    }
    assert questions[0..] == questions;
    for i := 0 to |questions|
      invariant RequiredError(questions, answers) == RequiredError(questions[i..], answers)
    {
      assert questions[i..][1..] == questions[i + 1..];
      if !questions[i].required { continue; }
      e := RequireAnswered(questions[i], answers);
      if e.Some? { return; }
    }
    return None;
  }

  // ---- The form ----

  /** JavaScript's white space, what trim removes: U+FEFF is in it and U+0085, which Go trims, is not. */
  predicate IsJsSpace(c: char) {
    (IsSpace(c) && c as int != 0x85) || c as int == 0xfeff
  }

  function TrimStart(s: string): string {
    if s != "" && IsJsSpace(s[0]) then TrimStart(s[1..]) else s
  }

  function TrimEnd(s: string): string {
    if s != "" && IsJsSpace(s[|s| - 1]) then TrimEnd(s[..|s| - 1]) else s
  }

  function Trim(s: string): string {
    TrimEnd(TrimStart(s))
  }

  datatype Value = Value(text: string, choiceIds: seq<string>)

  type Values = map<string, Value>

  predicate IsAnswered(q: Question, values: Values) {
    q.id in values && if q.kind == Text then Trim(values[q.id].text) != "" else values[q.id].choiceIds != []
  }

  function FindMissingRequired(questions: seq<Question>, values: Values): seq<string> {
    if questions == [] then []
    else if questions[0].required && !IsAnswered(questions[0], values) then
      [questions[0].id] + FindMissingRequired(questions[1..], values)
    else FindMissingRequired(questions[1..], values)
  }

  function BuiltAnswer(q: Question, v: Value): Answer {
    if q.kind == Text then Answer(q.id, Trim(v.text), []) else Answer(q.id, "", v.choiceIds)
  }

  function Built(questions: seq<Question>, values: Values): seq<Answer> {
    if questions == [] then []
    else
      (if IsAnswered(questions[0], values) then [BuiltAnswer(questions[0], values[questions[0].id])] else [])
      + Built(questions[1..], values)
  }

  method BuildAnswers(questions: seq<Question>, values: Values) returns (out: seq<Answer>)
    ensures out == Built(questions, values)
  {
    out := [];
    assert questions[0..] == questions;
    for i := 0 to |questions|
      invariant out + Built(questions[i..], values) == Built(questions, values)
    {
      var q := questions[i];
      BuiltStep(questions, i, values);
      hide Built, Trim;
      if !IsAnswered(q, values) { continue; }
      var v := values[q.id];
      var a := if q.kind == Text then Answer(q.id, Trim(v.text), []) else Answer(q.id, "", v.choiceIds);
      OneLater(out, a, Built(questions[i + 1..], values));
      out := out + [a];
    }
  }

  lemma OneLater(out: seq<Answer>, a: Answer, rest: seq<Answer>)
    ensures out + ([a] + rest) == (out + [a]) + rest
  {}

  lemma BuiltStep(questions: seq<Question>, i: nat, values: Values)
    requires i < |questions|
    ensures var rest := Built(questions[i + 1..], values);
      Built(questions[i..], values) ==
      if IsAnswered(questions[i], values) then [BuiltAnswer(questions[i], values[questions[i].id])] + rest else rest
  {
    hide Trim, IsAnswered;
    assert questions[i..][0] == questions[i] && questions[i..][1..] == questions[i + 1..];
  }

  /** Question i has an answer in the form: some choice, or a text that is more than white space. */
  ghost predicate HasAnswer(questions: seq<Question>, values: Values, i: nat) {
    && i < |questions| && questions[i].id in values
    && (questions[i].kind == Text ==> exists c :: c in values[questions[i].id].text && !IsJsSpace(c))
    && (questions[i].kind != Text ==> values[questions[i].id].choiceIds != [])
  }

  lemma {:induction false} TrimStartIsEmpty(s: string)
    ensures TrimStart(s) == "" <==> forall c :: c in s ==> IsJsSpace(c)
  {
    if s != "" {
      assert s[0] in s && forall c :: c in s <==> c == s[0] || c in s[1..];
      if IsJsSpace(s[0]) { TrimStartIsEmpty(s[1..]); }
    }
  }

  lemma {:induction false} TrimEndKeepsOther(s: string, c: char)
    requires c in s && !IsJsSpace(c)
    ensures c in TrimEnd(s)
  {
    if IsJsSpace(s[|s| - 1]) {
      assert s == s[..|s| - 1] + [s[|s| - 1]];
      TrimEndKeepsOther(s[..|s| - 1], c);
    }
  }

  lemma AnsweredMeans(questions: seq<Question>, values: Values, i: nat)
    requires i < |questions|
    ensures IsAnswered(questions[i], values) <==> HasAnswer(questions, values, i)
  {
    var q := questions[i];
    if q.kind == Text && q.id in values {
      var s := values[q.id].text;
      TrimStartIsEmpty(s);
      if TrimStart(s) != "" {
        TrimStartFirst(s);
        TrimEndKeepsOther(TrimStart(s), TrimStart(s)[0]);
      }
    }
  }

  /** The answer carries what the form holds for its question. */
  ghost predicate Submits(q: Question, values: Values, a: Answer) {
    && q.id in values && a.questionId == q.id
    && (q.kind == Text ==> a.text == Trim(values[q.id].text) && a.choiceIds == [])
    && (q.kind != Text ==> a.text == "" && a.choiceIds == values[q.id].choiceIds)
  }

  /** `from` gives for each answer the question it is for: in order, and every question from k on with an answer. */
  ghost predicate AnswersOf(questions: seq<Question>, k: nat, values: Values, out: seq<Answer>, from: seq<nat>) {
    && |from| == |out|
    && (forall i :: 0 <= i < |from| ==>
          k <= from[i] && HasAnswer(questions, values, from[i]) && Submits(questions[from[i]], values, out[i]))
    && (forall i, j :: 0 <= i < j < |from| ==> from[i] < from[j])
    && (forall i: nat :: k <= i && HasAnswer(questions, values, i) ==> i in from)
  }

  lemma {:induction false} BuiltFrom(questions: seq<Question>, k: nat, values: Values) returns (from: seq<nat>)
    requires k <= |questions|
    ensures AnswersOf(questions, k, values, Built(questions[k..], values), from)
    decreases |questions| - k
  {
    if k == |questions| {
      from := [];
    } else {
      from := BuiltFrom(questions, k + 1, values);
      BuiltStep(questions, k, values);
      AnsweredMeans(questions, values, k);
      hide *;
      if HasAnswer(questions, values, k) {
        OneMoreAnswer(questions, k, values, Built(questions[k + 1..], values), from);
        from := [k] + from;
      } else {
        NoMoreAnswer(questions, k, values, Built(questions[k + 1..], values), from);
      }
    }
  }

  lemma OneMoreAnswer(questions: seq<Question>, k: nat, values: Values, out: seq<Answer>, from: seq<nat>)
    requires HasAnswer(questions, values, k) && AnswersOf(questions, k + 1, values, out, from)
    ensures AnswersOf(questions, k, values, [BuiltAnswer(questions[k], values[questions[k].id])] + out, [k] + from)
  {
    var a := BuiltAnswer(questions[k], values[questions[k].id]);
    assert Submits(questions[k], values, a);
    hide HasAnswer, Submits, BuiltAnswer;
    var out', from' := [a] + out, [k] + from;
    assert forall i :: 1 <= i < |from'| ==> from'[i] == from[i - 1] && out'[i] == out[i - 1];
  }

  lemma NoMoreAnswer(questions: seq<Question>, k: nat, values: Values, out: seq<Answer>, from: seq<nat>)
    requires !HasAnswer(questions, values, k) && AnswersOf(questions, k + 1, values, out, from)
    ensures AnswersOf(questions, k, values, out, from)
  {
    hide HasAnswer, Submits;
  }

  /** What the form submits: one answer to each question that has one, with its trimmed text or its choices. */
  lemma BuiltAreTheAnswers(questions: seq<Question>, values: Values) returns (from: seq<nat>)
    ensures AnswersOf(questions, 0, values, Built(questions, values), from)
  {
    from := BuiltFrom(questions, 0, values);
    assert questions[0..] == questions;
  }

  /** What the form lists as missing: the required questions without an answer, none else, the first one first. */
  lemma {:induction false} MissingAreTheUnanswered(questions: seq<Question>, k: nat, values: Values) returns (i: nat)
    requires k <= |questions|
    ensures var missing := FindMissingRequired(questions[k..], values);
            && (forall id :: id in missing <==>
                  exists j :: k <= j < |questions| && questions[j].id == id && questions[j].required
                              && !HasAnswer(questions, values, j))
            && (missing != [] ==>
                  && k <= i < |questions| && missing[0] == questions[i].id
                  && questions[i].required && !HasAnswer(questions, values, i)
                  && forall j :: k <= j < i && questions[j].required ==> HasAnswer(questions, values, j))
    decreases |questions| - k
  {
    i := k;
    if k < |questions| {
      var rest := MissingAreTheUnanswered(questions, k + 1, values);
      AnsweredMeans(questions, values, k);
      assert questions[k..][0] == questions[k] && questions[k..][1..] == questions[k + 1..];
      hide HasAnswer, IsAnswered;
      if !(questions[k].required && !IsAnswered(questions[k], values)) { i := rest; }
    }
  }

  // ---- Both ----

  /** What the form lets its user choose. */
  ghost predicate Offered(questions: seq<Question>, values: Values) {
    forall i :: 0 <= i < |questions| && questions[i].id in values && questions[i].kind != Text ==>
      && (questions[i].kind == SingleChoice ==> |values[questions[i].id].choiceIds| <= 1)
      && forall c :: c in values[questions[i].id].choiceIds ==> c in Options(questions[i])
  }

  /** Text the form takes for an answer and the server for none: after trimming, only U+0085 and what both trim. */
  predicate LooksBlankToServer(q: Question, values: Values) {
    q.kind == Text && IsAnswered(q, values) && IsBlank(Trim(values[q.id].text))
  }

  /** No required text answer is one that only the server takes for blank. */
  predicate NoneLooksBlank(questions: seq<Question>, values: Values) {
    forall i :: 0 <= i < |questions| && questions[i].required ==> !LooksBlankToServer(questions[i], values)
  }

  /** The required questions whose answer does not reach the server as one. */
  function Unmet(questions: seq<Question>, values: Values): seq<string> {
    if questions == [] then []
    else if questions[0].required
            && (!IsAnswered(questions[0], values) || LooksBlankToServer(questions[0], values)) then
      [questions[0].id] + Unmet(questions[1..], values)
    else Unmet(questions[1..], values)
  }

  lemma {:induction false} ChosenFromOptions(q: Question, chosen: seq<string>)
    requires forall c :: c in chosen ==> c in Options(q)
    ensures ChoicesError(q, chosen) == None
  {
    if chosen != [] { ChosenFromOptions(q, chosen[1..]); }
  }

  lemma {:induction false} ByIdOfDistinct(questions: seq<Question>, i: nat)
    requires DistinctIds(questions) && i < |questions|
    ensures questions[i].id in ById(questions) && ById(questions)[questions[i].id] == questions[i]
  {
    var n := |questions| - 1;
    if i < n {
      assert questions[..n][i] == questions[i];
      ByIdOfDistinct(questions[..n], i);
    }
  }

  /** No answer the form builds is in itself refused. */
  lemma {:induction false} BuiltAnswersFit(all: seq<Question>, k: nat, values: Values, answered: set<string>)
    requires QuestionsOk(all) && Offered(all, values) && k <= |all|
    requires forall i :: k <= i < |all| ==> all[i].id !in answered
    ensures AnswersError(ById(all), Built(all[k..], values), answered) == None
    decreases |all| - k
  {
    if k < |all| {
      var q := all[k];
      assert all[k..][1..] == all[k + 1..];
      assert QuestionOk(q);
      ByIdOfDistinct(all, k);
      if IsAnswered(q, values) {
        var a := BuiltAnswer(q, values[q.id]);
        assert IsBlank("");
        if q.kind != Text { ChosenFromOptions(q, a.choiceIds); }
        BuiltAnswersFit(all, k + 1, values, answered + {q.id});
        var rest := Built(all[k + 1..], values);
        assert Built(all[k..], values) == [a] + rest;
        assert ([a] + rest)[1..] == rest;
      } else {
        assert Built(all[k..], values) == Built(all[k + 1..], values);
        BuiltAnswersFit(all, k + 1, values, answered);
      }
    }
  }

  /** The first built answer to a question is its own. */
  lemma {:induction false} SaysOfBuilt(all: seq<Question>, k: nat, values: Values, i: nat)
    requires DistinctIds(all) && k <= i < |all|
    ensures Says(all[i], Built(all[k..], values)) <==>
            IsAnswered(all[i], values) && !LooksBlankToServer(all[i], values)
    decreases |all| - k
  {
    var q := all[k];
    assert all[k..][1..] == all[k + 1..];
    var rest := Built(all[k + 1..], values);
    if IsAnswered(q, values) {
      var a := BuiltAnswer(q, values[q.id]);
      assert Built(all[k..], values) == [a] + rest && ([a] + rest)[1..] == rest;
    } else {
      assert Built(all[k..], values) == rest;
    }
    if k < i {
      SaysOfBuilt(all, k + 1, values, i);
    } else {
      NotBuiltLater(all, k + 1, values, q.id);
    }
  }

  lemma {:induction false} NotBuiltLater(all: seq<Question>, k: nat, values: Values, id: string)
    requires k <= |all| && forall i :: k <= i < |all| ==> all[i].id != id
    ensures forall q: Question :: q.id == id ==> !Says(q, Built(all[k..], values))
    decreases |all| - k
  {
    if k < |all| {
      assert all[k..][1..] == all[k + 1..];
      NotBuiltLater(all, k + 1, values, id);
      var rest := Built(all[k + 1..], values);
      if IsAnswered(all[k], values) {
        var a := BuiltAnswer(all[k], values[all[k].id]);
        assert Built(all[k..], values) == [a] + rest && ([a] + rest)[1..] == rest;
      } else {
        assert Built(all[k..], values) == rest;
      }
    }
  }

  lemma {:induction false} RequiredErrorOfBuilt(all: seq<Question>, k: nat, values: Values)
    requires DistinctIds(all) && k <= |all|
    ensures RequiredError(all[k..], Built(all, values)) ==
            if Unmet(all[k..], values) == [] then None else Some(Required(Unmet(all[k..], values)[0]))
    decreases |all| - k
  {
    if k < |all| {
      assert all[k..][1..] == all[k + 1..];
      assert all[0..] == all;
      SaysOfBuilt(all, 0, values, k);
      RequiredErrorOfBuilt(all, k + 1, values);
    }
  }

  /** For an accepted question list and what the form offers, the server's verdict on the built answers is exactly the
      first required question left unmet: nothing else is ever refused. */
  lemma ServerSeesTheFirstUnmet(questions: seq<Question>, values: Values)
    requires QuestionsOk(questions) && Offered(questions, values)
    ensures Verdict(questions, Built(questions, values)) ==
            if Unmet(questions, values) == [] then None else Some(Required(Unmet(questions, values)[0]))
  {
    assert questions[0..] == questions;
    BuiltAnswersFit(questions, 0, values, {});
    RequiredErrorOfBuilt(questions, 0, values);
  }

  lemma {:induction false} UnmetAgainstMissing(questions: seq<Question>, values: Values)
    ensures Unmet(questions, values) == [] <==>
            && FindMissingRequired(questions, values) == []
            && NoneLooksBlank(questions, values)
    ensures NoneLooksBlank(questions, values) ==>
              Unmet(questions, values) == FindMissingRequired(questions, values)
  {
    if questions != [] {
      UnmetAgainstMissing(questions[1..], values);
      assert forall i :: 1 <= i < |questions| ==> questions[i] == questions[1..][i - 1];
      assert questions[0] in questions;
    }
  }

  /** When the server accepts: nothing is missing in the form, and no required text answer is one that only the server
      takes for blank. Without such an answer the server names the first question the form would have listed. */
  lemma ServerAcceptsWhen(questions: seq<Question>, values: Values)
    requires QuestionsOk(questions) && Offered(questions, values)
    ensures Verdict(questions, Built(questions, values)) == None <==>
            && FindMissingRequired(questions, values) == []
            && NoneLooksBlank(questions, values)
    ensures NoneLooksBlank(questions, values) ==>
              Verdict(questions, Built(questions, values)) ==
              var missing := FindMissingRequired(questions, values);
              if missing == [] then None else Some(Required(missing[0]))
  {
    ServerSeesTheFirstUnmet(questions, values);
    UnmetAgainstMissing(questions, values);
  }

  /** When form and server agree on whether the answers are complete: the form misses something itself, or no required
      text answer looks blank to the server alone. */
  lemma FormAndServerAgreeIff(questions: seq<Question>, values: Values)
    requires QuestionsOk(questions) && Offered(questions, values)
    ensures (FindMissingRequired(questions, values) == [] <==> Verdict(questions, Built(questions, values)) == None)
            <==>
            || FindMissingRequired(questions, values) != []
            || NoneLooksBlank(questions, values)
  {
    ServerAcceptsWhen(questions, values);
  }

  lemma NextLineLooksAnswered(id: string, prompt: string) returns (questions: seq<Question>, values: Values)
    requires !IsBlank(id) && !IsBlank(prompt)
    ensures QuestionsOk(questions) && Offered(questions, values)
    ensures FindMissingRequired(questions, values) == []
    ensures Verdict(questions, Built(questions, values)) == Some(Required(id))
  {
    var nel := [0x85 as char];
    var q := Question(id, prompt, Text, [], true);
    questions, values := [q], map[id := Value(nel, [])];
    assert QuestionOk(q);
    assert TrimStart(nel) == nel && TrimEnd(nel) == nel;
    assert IsBlank(nel);
    assert questions[1..] == [];
    ServerSeesTheFirstUnmet(questions, values);
  }

  // ---- Where the two white spaces part ----

  lemma {:induction false} TrimStartFirst(s: string)
    ensures TrimStart(s) != "" ==> !IsJsSpace(TrimStart(s)[0])
    ensures forall c :: c in TrimStart(s) ==> c in s
  {
    if s != "" && IsJsSpace(s[0]) { TrimStartFirst(s[1..]); }
  }

  lemma {:induction false} TrimEndIsPrefix(s: string)
    ensures TrimEnd(s) <= s
  {
    if s != "" && IsJsSpace(s[|s| - 1]) { TrimEndIsPrefix(s[..|s| - 1]); }
  }

  /** Only text with a U+0085 in it can be an answer to the form and blank to the server. */
  lemma BlankOnlyWithNextLine(q: Question, values: Values)
    requires LooksBlankToServer(q, values)
    ensures 0x85 as char in values[q.id].text
  {
    var text := values[q.id].text;
    TrimStartFirst(text);
    TrimEndIsPrefix(TrimStart(text));
    var c := Trim(text)[0];
    assert c == TrimStart(text)[0];
    assert IsSpace(c) && !IsJsSpace(c);
  }

  /** Trimming cuts exactly the white space at both ends. */
  lemma TrimCutsTheEnds(s: string) returns (i: nat, j: nat)
    ensures i <= j <= |s| && Trim(s) == s[i..j]
    ensures forall k :: 0 <= k < i || j <= k < |s| ==> IsJsSpace(s[k])
    ensures i < j ==> !IsJsSpace(s[i]) && !IsJsSpace(s[j - 1])
  {
    i := StartCut(s);
    var n := EndCut(s[i..]);
    j := i + n;
    assert s[i..][..n] == s[i..j];
    assert forall k :: j <= k < |s| ==> s[k] == s[i..][k - i];
  }

  lemma {:induction false} StartCut(s: string) returns (i: nat)
    ensures i <= |s| && TrimStart(s) == s[i..] && forall k :: 0 <= k < i ==> IsJsSpace(s[k])
    ensures i < |s| ==> !IsJsSpace(s[i])
  {
    i := 0;
    if s != "" && IsJsSpace(s[0]) {
      var n := StartCut(s[1..]);
      i := n + 1;
      assert forall k :: 0 < k < |s| ==> s[k] == s[1..][k - 1];
    }
  }

  lemma {:induction false} EndCut(s: string) returns (j: nat)
    ensures j <= |s| && TrimEnd(s) == s[..j] && forall k :: j <= k < |s| ==> IsJsSpace(s[k])
    ensures j > 0 ==> !IsJsSpace(s[j - 1])
  {
    j := |s|;
    if s != "" && IsJsSpace(s[|s| - 1]) {
      j := EndCut(s[..|s| - 1]);
      assert s[..|s| - 1][..j] == s[..j];
    }
  }
}
