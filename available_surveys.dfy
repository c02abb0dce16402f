/** The earlier participant page (app/participant/available/page.tsx), which runs the
    same discovery rule over four built-in mock surveys. Its records carry free-text
    `requisites` and a boolean `requiresWorldcoinId`; its tag catalogue is not sorted.
    Its `toggleFilter` is the same expression as the dashboard's, so
    `SurveyDashboard.ToggleFilter` models both. */
module AvailableSurveys {
  import opened Seqs
  import SurveyDashboard

  /** `reward` is a dollar amount with cents; it is held in cents here. */
  datatype MockSurvey = MockSurvey(
    id: nat,
    title: string,
    description: string,
    requisites: seq<string>,
    rewardCents: nat,
    requiresWorldcoinId: bool)

  const Surveys: seq<MockSurvey> := [
    MockSurvey(1, "Consumer Habits Survey", "Share your shopping preferences and habits",
               ["Age 18-65", "US Resident", "Online shopper"], 550, false),
    MockSurvey(2, "Tech Usage Survey", "Tell us about your technology usage patterns",
               ["Own a smartphone", "Use social media", "Age 16-40"], 475, true),
    MockSurvey(3, "Health and Fitness Survey", "Answer questions about your health and fitness routines",
               ["Exercise regularly", "Age 21-50", "No chronic conditions"], 625, false),
    MockSurvey(4, "Work-Life Balance Survey", "Share insights on managing work and personal life",
               ["Full-time employed", "Age 25-55", "Urban resident"], 500, true)
  ]

  /** `surveys.flatMap(survey => survey.requisites)`. */
  function Requisites(surveys: seq<MockSurvey>): (r: seq<string>)
    ensures forall t :: t in r <==> exists s :: s in surveys && t in s.requisites
  {
    if surveys == [] then []
    else
      var rest := Requisites(surveys[1..]);
      assert forall s :: s in surveys <==> s == surveys[0] || s in surveys[1..] by {
        assert surveys == [surveys[0]] + surveys[1..];
      }
      surveys[0].requisites + rest
  }

  /** `Array.from(new Set(surveys.flatMap(s => s.requisites)))`: each requisite once,
      in the order it is first met. */
  function AllRequisites(surveys: seq<MockSurvey>): (r: seq<string>)
    ensures forall t :: t in r <==> exists s :: s in surveys && t in s.requisites
    ensures forall t :: t in r ==> multiset(r)[t] == 1
    ensures forall t :: t in r <==> t in Requisites(surveys)
    ensures forall i, j :: 0 <= i < j < |r| ==>
      FirstIndex(Requisites(surveys), r[i]) < FirstIndex(Requisites(surveys), r[j])
  {
    var r := Dedup(Requisites(surveys));
    forall t | t in r ensures multiset(r)[t] == 1 {
      NoDuplicatesCount(r, t);
    }
    r
  }

  /** The mock surveys' requisites are pairwise distinct, so the catalogue is simply
      their concatenation, twelve entries long. */
  lemma MockCatalogue()
    ensures AllRequisites(Surveys) == Requisites(Surveys)
    ensures |AllRequisites(Surveys)| == 12
  {
    var all := Requisites(Surveys);
    assert all == Surveys[0].requisites + Surveys[1].requisites + Surveys[2].requisites + Surveys[3].requisites by {
      assert Requisites(Surveys[4..]) == [];
      assert Requisites(Surveys[3..]) == Surveys[3].requisites + Requisites(Surveys[4..]);
      assert Requisites(Surveys[2..]) == Surveys[2].requisites + Requisites(Surveys[3..]);
      assert Requisites(Surveys[1..]) == Surveys[1].requisites + Requisites(Surveys[2..]);
      assert all == Surveys[0].requisites + Requisites(Surveys[1..]);
    }
    MockRequisitesDistinct();
    DedupDistinct(all);
  }

  lemma MockRequisitesDistinct()
    ensures NoDuplicates(Surveys[0].requisites + Surveys[1].requisites + Surveys[2].requisites + Surveys[3].requisites)
  {
    var all := Surveys[0].requisites + Surveys[1].requisites + Surveys[2].requisites + Surveys[3].requisites;
    assert all == ["Age 18-65", "US Resident", "Online shopper",
                   "Own a smartphone", "Use social media", "Age 16-40",
                   "Exercise regularly", "Age 21-50", "No chronic conditions",
                   "Full-time employed", "Age 25-55", "Urban resident"];
  }

  /** De-duplicating a sequence without duplicates changes nothing. */
  lemma {:induction false} DedupDistinct<T(!new)>(s: seq<T>)
    requires NoDuplicates(s)
    ensures Dedup(s) == s
  {
    if s != [] {
      var init := s[..|s| - 1];
      assert NoDuplicates(init);
      DedupDistinct(init);
      assert s[|s| - 1] !in init;
      assert s == init + [s[|s| - 1]];
    }
  }

  predicate Matches(s: MockSurvey, filters: seq<string>, worldcoinOnly: bool)
  {
    SurveyDashboard.Passes(s.requisites, s.requiresWorldcoinId, filters, worldcoinOnly)
  }

  /** `surveys.filter(...)`: the mock surveys shown, in their original order. */
  function FilteredSurveys(surveys: seq<MockSurvey>, filters: seq<string>, worldcoinOnly: bool): (r: seq<MockSurvey>)
    ensures forall s :: s in r <==>
      && s in surveys
      && (forall f :: f in filters ==> f in s.requisites)
      && (!worldcoinOnly || s.requiresWorldcoinId)
    ensures forall s :: s in r ==> multiset(r)[s] == multiset(surveys)[s]
    ensures IsSubsequence(r, surveys)
  {
    var keep := (s: MockSurvey) => Matches(s, filters, worldcoinOnly);
    FilterContents(surveys, keep);
    FilterIsSubsequence(surveys, keep);
    Filter(surveys, keep)
  }

  /** Adding filters or switching "World ID only" on never enlarges the list. */
  lemma FilteringNarrows(surveys: seq<MockSurvey>, filters: seq<string>, worldcoinOnly: bool,
                         filters': seq<string>, worldcoinOnly': bool)
    requires forall f :: f in filters ==> f in filters'
    requires worldcoinOnly ==> worldcoinOnly'
    ensures IsSubsequence(FilteredSurveys(surveys, filters', worldcoinOnly'),
                          FilteredSurveys(surveys, filters, worldcoinOnly))
  {
    FilterMonotone(surveys, (s: MockSurvey) => Matches(s, filters', worldcoinOnly'),
                            (s: MockSurvey) => Matches(s, filters, worldcoinOnly));
  }

  /** With no filter and the switch off all four mock surveys are listed; with the
      switch on only surveys 2 and 4 can be. */
  lemma MockVisibility(filters: seq<string>)
    ensures FilteredSurveys(Surveys, [], false) == Surveys
    ensures forall s :: s in FilteredSurveys(Surveys, filters, true) ==> s.id == 2 || s.id == 4
  {
    FilterKeepsAll(Surveys, (s: MockSurvey) => Matches(s, [], false));
  }
}
