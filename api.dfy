/** The records exchanged with the hosted database (api/api.ts): surveys, their
    questions, and the answers participants submit. The database calls themselves
    are network I/O and are not modelled; only the one client-side step after
    fetching answers is. */
module Api {
  import opened Seqs

  datatype Question = Question(
    index: int,
    question: string,
    options: seq<string>,
    multiple: bool,
    isAc: bool)

  /** A survey as stored in the `surveys` table. The server-generated `id` is taken
      as present (every fetched row has one); `created_at` and `ipfs` are not read by
      any modelled code and are left out. */
  datatype Survey = Survey(
    id: string,
    name: string,
    description: string,
    owner: string,
    prize: int,
    timeLimit: int,
    maxAmount: int,
    minAmount: int,
    questions: seq<Question>,
    requirements: seq<string>,
    segmentation: seq<string>)

  /** One answered question: its position in `questions` and the chosen labels. */
  datatype AnswerEntry = AnswerEntry(index: int, answers: seq<string>)

  datatype Answer = Answer(surveyId: string, data: seq<AnswerEntry>)

  /** The answers belonging to one survey, kept in the order the table returned them. */
  function AnswersOf(answers: seq<Answer>, surveyId: string): (r: seq<Answer>)
    ensures forall a :: a in r <==> a in answers && a.surveyId == surveyId
    ensures forall a :: a in r ==> multiset(r)[a] == multiset(answers)[a]
    ensures IsSubsequence(r, answers)
  {
    var belongs := (a: Answer) => a.surveyId == surveyId;
    FilterContents(answers, belongs);
    FilterIsSubsequence(answers, belongs);
    Filter(answers, belongs)
  }
}
