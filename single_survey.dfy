/** Answering one survey (app/components/dashboards/SingleSurvey.tsx): the form keeps a
    dictionary from question position to the current response, a radio choice or the
    list of ticked boxes, and on submit turns it into an `Answer` record. Sending the
    record to the database is left out. */
module SingleSurvey {
  import opened Seqs
  import opened Api

  /** The value stored under a question's key: the chosen radio option, or the list
      of ticked checkbox options. */
  datatype Response = Single(choice: string) | Multiple(labels: seq<string>)

  /** The `responses` state. Keys are question positions: the component writes them
      with the numeric index of `survey.questions.map`. */
  type Responses = map<nat, Response>

  /** `setResponses(prev => ({ ...prev, [questionIndex]: value }))`. */
  function HandleInputChange(responses: Responses, questionIndex: nat, value: Response): (r: Responses)
    ensures r.Keys == responses.Keys + {questionIndex}
    ensures r[questionIndex] == value
    ensures forall k :: k in responses && k != questionIndex ==> r[k] == responses[k]
  {
    responses[questionIndex := value]
  }

  /** `(responses[index] as string[]) || []`: the ticked options so far, none when the
      question has no entry yet. */
  function CurrentSelection(responses: Responses, questionIndex: nat): seq<string>
    requires questionIndex !in responses || responses[questionIndex].Multiple?
  {
    if questionIndex in responses then responses[questionIndex].labels else []
  }

  /** A checkbox of question `questionIndex` changes: ticking appends its option to the
      current selection, unticking removes every copy of it. The entry under a
      checkbox question is never a radio choice, because a question's kind is fixed. */
  function CheckboxChange(responses: Responses, questionIndex: nat, option: string, checked: bool): (r: Responses)
    requires questionIndex !in responses || responses[questionIndex].Multiple?
    ensures r.Keys == responses.Keys + {questionIndex}
    ensures forall k :: k in responses && k != questionIndex ==> r[k] == responses[k]
    ensures r[questionIndex].Multiple?
    ensures checked ==> r[questionIndex].labels == CurrentSelection(responses, questionIndex) + [option]
    ensures !checked ==> forall l :: l in r[questionIndex].labels <==>
                                     l in CurrentSelection(responses, questionIndex) && l != option
    ensures !checked ==> IsSubsequence(r[questionIndex].labels, CurrentSelection(responses, questionIndex))
    ensures !checked ==> forall l :: l != option ==>
      multiset(r[questionIndex].labels)[l] == multiset(CurrentSelection(responses, questionIndex))[l]
  {
    var current := CurrentSelection(responses, questionIndex);
    if checked then
      HandleInputChange(responses, questionIndex, Multiple(current + [option]))
    else
      var other := (l: string) => l != option;
      FilterContents(current, other);
      FilterIsSubsequence(current, other);
      HandleInputChange(responses, questionIndex, Multiple(Filter(current, other)))
  }

  /** A response fits a question when its kind matches and every label is one of the
      question's options. */
  predicate Fits(q: Question, v: Response)
  {
    match v
    case Single(l) => !q.multiple && l in q.options
    case Multiple(ls) => q.multiple && forall l :: l in ls ==> l in q.options
  }

  /** What the form can record: keys are positions of `survey.questions`, and each
      entry fits its question. */
  predicate Recorded(survey: Survey, responses: Responses)
  {
    forall k :: k in responses ==> k < |survey.questions| && Fits(survey.questions[k], responses[k])
  }

  /** Choosing a radio option of a single-choice question keeps the form's responses
      recordable. */
  lemma RadioKeepsRecorded(survey: Survey, responses: Responses, questionIndex: nat, option: string)
    requires Recorded(survey, responses)
    requires questionIndex < |survey.questions|
    requires !survey.questions[questionIndex].multiple
    requires option in survey.questions[questionIndex].options
    ensures Recorded(survey, HandleInputChange(responses, questionIndex, Single(option)))
  {
  }

  /** Ticking or unticking a box of a multi-select question keeps the form's responses
      recordable. */
  lemma CheckboxKeepsRecorded(survey: Survey, responses: Responses, questionIndex: nat,
                              option: string, checked: bool)
    requires Recorded(survey, responses)
    requires questionIndex < |survey.questions|
    requires survey.questions[questionIndex].multiple
    requires option in survey.questions[questionIndex].options
    ensures questionIndex !in responses || responses[questionIndex].Multiple?
    ensures Recorded(survey, CheckboxChange(responses, questionIndex, option, checked))
  {
    assert questionIndex in responses ==> Fits(survey.questions[questionIndex], responses[questionIndex]);
  }

  /** The labels an entry contributes: a radio choice becomes a one-element list, a
      checkbox list is passed on unchanged. */
  function Labels(v: Response): seq<string>
  {
    match v
    case Single(l) => [l]
    case Multiple(ls) => ls
  }

  lemma MinimumExists(ks: set<nat>)
    requires ks != {}
    ensures exists k :: k in ks && forall j :: j in ks ==> k <= j
  {
    var k :| k in ks;
    MinimumAtMost(ks, k);
  }

  /** A set holding `k` has a least element, found by descending from `k`. */
  lemma {:induction false} MinimumAtMost(ks: set<nat>, k: nat)
    requires k in ks
    ensures exists m :: m in ks && forall j :: j in ks ==> m <= j
    decreases k
  {
    if !forall j :: j in ks ==> k <= j {
      var j :| j in ks && j < k;
      MinimumAtMost(ks, j);
    }
  }

  /** Putting the least key in front of the ascending list of the other keys gives the
      ascending list of all keys. */
  lemma PrependLeast(ks: set<nat>, k: nat, rest: seq<nat>)
    requires k in ks && forall j :: j in ks ==> k <= j
    requires forall x :: x in rest <==> x in ks - {k}
    requires forall i, j :: 0 <= i < j < |rest| ==> rest[i] < rest[j]
    requires |rest| == |ks - {k}|
    ensures forall x :: x in [k] + rest <==> x in ks
    ensures forall i, j :: 0 <= i < j < |[k] + rest| ==> ([k] + rest)[i] < ([k] + rest)[j]
    ensures |[k] + rest| == |ks|
  {
    var r := [k] + rest;
    forall x ensures x in r <==> x in ks {
      assert x in r <==> x == k || x in rest;
    }
    forall i, j | 0 <= i < j < |r| ensures r[i] < r[j] {
      assert r[j] == rest[j - 1] && rest[j - 1] in ks - {k};
      if i > 0 { assert r[i] == rest[i - 1]; }
    }
  }

  /** The keys of `responses` in the order `Object.entries` lists them: integer-like
      property keys come first, in ascending numeric order (ECMA-262, section 10.1.11.1,
      OrdinaryOwnPropertyKeys). */
  function SortedKeys(ks: set<nat>): (r: seq<nat>)
    ensures forall k :: k in r <==> k in ks
    ensures forall i, j :: 0 <= i < j < |r| ==> r[i] < r[j]
    ensures |r| == |ks|
    decreases ks
  {
    if ks == {} then []
    else
      MinimumExists(ks);
      var k :| k in ks && forall j :: j in ks ==> k <= j;
      var rest := SortedKeys(ks - {k});
      PrependLeast(ks, k, rest);
      [k] + rest
  }

  /** `.map(([index, answers]) => ({ index: parseInt(index), answers: ... }))` over the
      listed keys. */
  function Entries(responses: Responses, keys: seq<nat>): (d: seq<AnswerEntry>)
    requires forall k :: k in keys ==> k in responses
    ensures |d| == |keys|
    ensures forall j :: 0 <= j < |d| ==> d[j] == AnswerEntry(keys[j], Labels(responses[keys[j]]))
  {
    if keys == [] then []
    else [AnswerEntry(keys[0], Labels(responses[keys[0]]))] + Entries(responses, keys[1..])
  }

  /** `handleSubmit`'s record: the survey's id, and one entry per recorded key, in
      ascending key order, carrying that key and its labels. */
  function BuildAnswer(survey: Survey, responses: Responses): (a: Answer)
    ensures a.surveyId == survey.id
    ensures |a.data| == |responses|
    ensures forall e :: e in a.data ==>
      && 0 <= e.index
      && e.index as nat in responses
      && e.answers == Labels(responses[e.index as nat])
    ensures forall k :: k in responses ==> AnswerEntry(k, Labels(responses[k])) in a.data
    ensures forall i, j :: 0 <= i < j < |a.data| ==> a.data[i].index < a.data[j].index
  {
    var keys := SortedKeys(responses.Keys);
    EntriesSound(responses, keys);
    EntriesCover(responses, keys);
    EntriesOrdered(responses, keys);
    assert |responses.Keys| == |responses|;
    Answer(survey.id, Entries(responses, keys))
  }

  /** Every key of `responses` listed in `keys` has an entry. */
  lemma EntriesCover(responses: Responses, keys: seq<nat>)
    requires forall k :: k in keys <==> k in responses
    ensures forall k :: k in responses ==> AnswerEntry(k, Labels(responses[k])) in Entries(responses, keys)
  {
    var data := Entries(responses, keys);
    forall k | k in responses ensures AnswerEntry(k, Labels(responses[k])) in data {
      var j :| 0 <= j < |keys| && keys[j] == k;
      assert data[j] == AnswerEntry(k, Labels(responses[k]));
    }
  }

  /** Entries follow the order of `keys`. */
  lemma EntriesOrdered(responses: Responses, keys: seq<nat>)
    requires forall k :: k in keys ==> k in responses
    requires forall i, j :: 0 <= i < j < |keys| ==> keys[i] < keys[j]
    ensures forall i, j :: 0 <= i < j < |Entries(responses, keys)| ==>
      Entries(responses, keys)[i].index < Entries(responses, keys)[j].index
  {
    var data := Entries(responses, keys);
    forall i, j | 0 <= i < j < |data| ensures data[i].index < data[j].index {
      assert data[i].index == keys[i] && data[j].index == keys[j];
    }
  }

  /** Every entry carries a listed key and that key's labels. */
  lemma EntriesSound(responses: Responses, keys: seq<nat>)
    requires forall k :: k in keys ==> k in responses
    ensures forall e :: e in Entries(responses, keys) ==>
      && 0 <= e.index
      && e.index as nat in responses
      && e.answers == Labels(responses[e.index as nat])
  {
    var data := Entries(responses, keys);
    forall e | e in data
      ensures 0 <= e.index && e.index as nat in responses && e.answers == Labels(responses[e.index as nat])
    {
      var j :| 0 <= j < |data| && data[j] == e;
      assert keys[j] in keys;
    }
  }

  /** An answer built from recordable responses refers only to questions of the survey,
      carries only their options, and has exactly one label for a single-choice
      question. */
  lemma AnswerFitsSurvey(survey: Survey, responses: Responses)
    requires Recorded(survey, responses)
    ensures var a := BuildAnswer(survey, responses);
      forall e :: e in a.data ==>
        && 0 <= e.index < |survey.questions|
        && (forall l :: l in e.answers ==> l in survey.questions[e.index].options)
        && (!survey.questions[e.index].multiple ==> |e.answers| == 1)
  {
    var a := BuildAnswer(survey, responses);
    forall e | e in a.data
      ensures 0 <= e.index < |survey.questions|
      ensures forall l :: l in e.answers ==> l in survey.questions[e.index].options
      ensures !survey.questions[e.index].multiple ==> |e.answers| == 1
    {
      var j :| 0 <= j < |a.data| && a.data[j] == e;
      assert Fits(survey.questions[e.index], responses[e.index as nat]);
    }
  }
}
