/** The researcher's survey editor (app/researcher/CreateSurvey/page.tsx). The draft
    is a list of question objects plus the survey parameters. Adding, removing and
    editing a question builds a new list; adding, editing and removing an option
    changes the options of the (shared) question object in place. Submitting appends
    the finished survey to the browser's stored list of surveys. */
module CreateSurvey {
  import opened Wrappers
  import opened Seqs

  datatype QuestionType = MultipleChoice | Checkbox

  /** A question's value: its prompt, its kind and its option labels. */
  datatype Question = Question(text: string, kind: QuestionType, options: seq<string>)

  datatype Requirement = Required | Optional

  datatype Reward = Reward(enabled: bool, amount: string)

  /** `quota` and `amount` hold the text of number inputs. */
  datatype ParticipantQuota = ParticipantQuota(enabled: bool, quota: string, reward: Reward)

  datatype SurveyParameters = SurveyParameters(
    participantQuota: ParticipantQuota,
    worldId: Requirement,
    quarkId: Requirement)

  /** A survey in the browser's `'surveys'` list. The editor writes no `publishedAt`
      (None) and no `closed` flag (false); the published dashboard reads and sets them. */
  datatype StoredSurvey = StoredSurvey(
    id: string,
    title: string,
    description: string,
    questions: seq<Question>,
    parameters: SurveyParameters,
    createdAt: string,
    publishedAt: Option<string>,
    closed: bool)

  /** The question `addQuestion` appends and the draft starts with. */
  const BlankQuestion: Question := Question("", MultipleChoice, [""])

  const InitialParameters: SurveyParameters :=
    SurveyParameters(ParticipantQuota(false, "", Reward(false, "")), Optional, Optional)

  /** `updateQuestion(index, field, value)`: the form only edits `text` and `type`. */
  datatype QuestionEdit = SetText(text: string) | SetType(kind: QuestionType)

  /** `{ ...question, [field]: value }`: the edited field takes the new value, the
      others keep theirs. */
  function ApplyEdit(q: Question, edit: QuestionEdit): (r: Question)
    ensures r.options == q.options
    ensures r.text == (if edit.SetText? then edit.text else q.text)
    ensures r.kind == (if edit.SetType? then edit.kind else q.kind)
  {
    match edit
    case SetText(t) => q.(text := t)
    case SetType(k) => q.(kind := k)
  }

  /** `updateParameters(field, value)` for the three fields the form writes. */
  datatype ParameterUpdate =
    | SetParticipantQuota(quota: ParticipantQuota)
    | SetWorldId(worldId: Requirement)
    | SetQuarkId(quarkId: Requirement)

  /** `{ ...prev, [field]: value }`: only the named field changes. */
  function UpdateParameters(p: SurveyParameters, u: ParameterUpdate): (r: SurveyParameters)
    ensures r.participantQuota == (if u.SetParticipantQuota? then u.quota else p.participantQuota)
    ensures r.worldId == (if u.SetWorldId? then u.worldId else p.worldId)
    ensures r.quarkId == (if u.SetQuarkId? then u.quarkId else p.quarkId)
  {
    match u
    case SetParticipantQuota(q) => p.(participantQuota := q)
    case SetWorldId(w) => p.(worldId := w)
    case SetQuarkId(k) => p.(quarkId := k)
  }

  /** Dropping one position of a list of distinct elements leaves them distinct. */
  lemma DropIndexDistinct<T>(s: seq<T>, k: int)
    requires NoDuplicates(s)
    ensures NoDuplicates(DropIndex(s, k))
  {
    var r := DropIndex(s, k);
    if 0 <= k < |s| {
      forall i, j | 0 <= i < j < |r| ensures r[i] != r[j] {
        var i' := if i < k then i else i + 1;
        var j' := if j < k then j else j + 1;
        assert r[i] == s[i'] && r[j] == s[j'] && i' < j';
      }
    }
  }

  /** One question object of the draft. */
  class DraftQuestion {
    var text: string
    var kind: QuestionType
    var options: seq<string>

    constructor (text: string, kind: QuestionType, options: seq<string>)
      ensures this.text == text && this.kind == kind && this.options == options
    {
      this.text := text;
      this.kind := kind;
      this.options := options;
    }

    function Value(): Question
      reads this
    {
      Question(text, kind, options)
    }
  }

  /** The editor's state: the `title`, `description`, `questions` and `parameters`
      React state, and the `'surveys'` entry of local storage, held as a list. */
  class CreateSurveyForm {
    var title: string
    var description: string
    var questions: seq<DraftQuestion>
    var parameters: SurveyParameters
    var stored: seq<StoredSurvey>

    /** Every question is its own object, so changing one in place changes no other. */
    ghost predicate Valid()
      reads this
    {
      NoDuplicates(questions)
    }

    /** The draft's questions as values. */
    function Questions(): (qs: seq<Question>)
      reads this, questions
      ensures |qs| == |questions|
      ensures forall i :: 0 <= i < |questions| ==> qs[i] == questions[i].Value()
    {
      seq(|questions|, i reads this, questions requires 0 <= i < |questions| => questions[i].Value())
    }

    /** The initial draft: one blank multiple-choice question, no quota, no reward,
        both identity checks optional. */
    constructor (storage: seq<StoredSurvey>)
      ensures Valid()
      ensures title == "" && description == ""
      ensures Questions() == [BlankQuestion]
      ensures parameters == InitialParameters
      ensures stored == storage
    {
      var q := new DraftQuestion("", MultipleChoice, [""]);
      title, description := "", "";
      questions := [q];
      parameters := InitialParameters;
      stored := storage;
    }

    method SetTitle(t: string)
      modifies this
      ensures title == t
      ensures description == old(description) && questions == old(questions)
      ensures parameters == old(parameters) && stored == old(stored)
    {
      title := t;
    }

    method SetDescription(d: string)
      modifies this
      ensures description == d
      ensures title == old(title) && questions == old(questions)
      ensures parameters == old(parameters) && stored == old(stored)
    {
      description := d;
    }

    /** `addQuestion`: one blank question at the end; the others are untouched. */
    method AddQuestion()
      requires Valid()
      modifies this
      ensures Valid()
      ensures Questions() == old(Questions()) + [BlankQuestion]
      ensures title == old(title) && description == old(description)
      ensures parameters == old(parameters) && stored == old(stored)
    {
      var q := new DraftQuestion("", MultipleChoice, [""]);
      questions := questions + [q];
    }

    /** `removeQuestion(index)`: every question but the one at `index`, in order; an
        index outside the list removes nothing. */
    method RemoveQuestion(index: int)
      requires Valid()
      modifies this
      ensures Valid()
      ensures Questions() == DropIndex(old(Questions()), index)
      ensures title == old(title) && description == old(description)
      ensures parameters == old(parameters) && stored == old(stored)
    {
      ghost var before := Questions();
      DropIndexDistinct(questions, index);
      questions := DropIndex(questions, index);
      assert Questions() == DropIndex(before, index);
    }

    /** `updateQuestion(index, field, value)`: question `index` is replaced by a copy
        with the one field changed. */
    method UpdateQuestion(index: nat, edit: QuestionEdit)
      requires Valid() && index < |questions|
      modifies this
      ensures Valid()
      ensures Questions() == old(Questions())[index := ApplyEdit(old(Questions())[index], edit)]
      ensures title == old(title) && description == old(description)
      ensures parameters == old(parameters) && stored == old(stored)
    {
      var current := questions[index];
      var updated := ApplyEdit(current.Value(), edit);
      var q := new DraftQuestion(updated.text, updated.kind, updated.options);
      questions := questions[index := q];
    }

    /** `addOption(questionIndex)`: the question object itself gets an empty option
        pushed onto its options. */
    method AddOption(questionIndex: nat)
      requires Valid() && questionIndex < |questions|
      modifies questions[questionIndex]
      ensures Valid()
      ensures Questions() == old(Questions())[questionIndex :=
        old(Questions())[questionIndex].(options := old(Questions())[questionIndex].options + [""])]
    {
      var q := questions[questionIndex];
      q.options := q.options + [""];
    }

    /** `updateOption(questionIndex, optionIndex, value)`: assigns one option of the
        question object in place. */
    method UpdateOption(questionIndex: nat, optionIndex: nat, value: string)
      requires Valid() && questionIndex < |questions|
      requires optionIndex < |questions[questionIndex].options|
      modifies questions[questionIndex]
      ensures Valid()
      ensures Questions() == old(Questions())[questionIndex :=
        old(Questions())[questionIndex].(options := old(Questions())[questionIndex].options[optionIndex := value])]
    {
      var q := questions[questionIndex];
      q.options := q.options[optionIndex := value];
    }

    /** `removeOption(questionIndex, optionIndex)`: reassigns the question object's
        options to all but the one at `optionIndex`. */
    method RemoveOption(questionIndex: nat, optionIndex: int)
      requires Valid() && questionIndex < |questions|
      modifies questions[questionIndex]
      ensures Valid()
      ensures Questions() == old(Questions())[questionIndex :=
        old(Questions())[questionIndex].(options := DropIndex(old(Questions())[questionIndex].options, optionIndex))]
    {
      var q := questions[questionIndex];
      q.options := DropIndex(q.options, optionIndex);
    }

    method SetParameters(u: ParameterUpdate)
      modifies this
      ensures parameters == UpdateParameters(old(parameters), u)
      ensures title == old(title) && description == old(description)
      ensures questions == old(questions) && stored == old(stored)
    {
      parameters := UpdateParameters(parameters, u);
    }

    /** `handleSubmit`: the stored list gains the new survey at its end. The id
        (`Date.now()`) and creation time are passed in. */
    method Submit(id: string, createdAt: string)
      modifies this
      ensures stored == old(stored) +
        [StoredSurvey(id, title, description, old(Questions()), parameters, createdAt, None, false)]
      ensures title == old(title) && description == old(description)
      ensures questions == old(questions) && parameters == old(parameters)
    {
      var snapshot := Questions();
      stored := stored + [StoredSurvey(id, title, description, snapshot, parameters, createdAt, None, false)];
    }
  }
}
