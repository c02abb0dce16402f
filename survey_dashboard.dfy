/** The participant's survey browser (app/components/dashboards/SurveyDashboard.tsx):
    the catalogue of segmentation tags offered as filters, switching a filter on and
    off, and the list of surveys that match the active filters. */
module SurveyDashboard {
  import opened Seqs
  import opened StringOrder
  import opened Api

  /** The requirement tag the "World ID only" switch looks for. */
  const WorldIdTag: string := "World ID"

  /** `surveys.flatMap(survey => survey.segmentation)`. */
  function Segmentations(surveys: seq<Survey>): (r: seq<string>)
    ensures forall t :: t in r <==> exists s :: s in surveys && t in s.segmentation
  {
    if surveys == [] then []
    else
      var rest := Segmentations(surveys[1..]);
      assert forall s :: s in surveys <==> s == surveys[0] || s in surveys[1..] by {
        assert surveys == [surveys[0]] + surveys[1..];
      }
      surveys[0].segmentation + rest
  }

  /** De-duplicating a sorted sequence leaves it strictly increasing. */
  lemma DedupSortedIsStrict(s: seq<string>)
    requires Sorted(s)
    ensures StrictlyIncreasing(Dedup(s))
  {
    var r := Dedup(s);
    forall i, j | 0 <= i < j < |r| ensures LexLe(r[i], r[j]) && r[i] != r[j] {
      var fi, fj := FirstIndex(s, r[i]), FirstIndex(s, r[j]);
      assert fi < fj;
      assert s[fi] == r[i] && s[fj] == r[j];
    }
  }

  /** `Array.from(new Set(surveys.flatMap(s => s.segmentation).sort()))`: every tag that
      some survey carries, each once, in ascending order. */
  function AllRequisites(surveys: seq<Survey>): (r: seq<string>)
    ensures forall t :: t in r <==> exists s :: s in surveys && t in s.segmentation
    ensures StrictlyIncreasing(r)
  {
    var tags := Segmentations(surveys);
    var sorted := Sort(tags);
    assert forall t :: t in sorted <==> t in tags by {
      forall t ensures t in sorted <==> t in tags {
        assert t in sorted <==> t in multiset(sorted);
        assert t in tags <==> t in multiset(tags);
      }
    }
    DedupSortedIsStrict(sorted);
    Dedup(sorted)
  }

  /** The checkbox handler: an active filter is switched off (every copy of it removed),
      an inactive one is appended at the end. */
  function ToggleFilter(filters: seq<string>, f: string): (r: seq<string>)
    ensures f in r <==> f !in filters
    ensures forall g :: g != f ==> (g in r <==> g in filters)
    ensures f !in filters ==> r == filters + [f]
    ensures f in filters ==> IsSubsequence(r, filters)
    ensures forall g :: g != f ==> multiset(r)[g] == multiset(filters)[g]
    ensures NoDuplicates(filters) ==> NoDuplicates(r)
  {
    if f in filters then
      var other := (g: string) => g != f;
      FilterContents(filters, other);
      FilterIsSubsequence(filters, other);
      FilterNoDuplicates(filters, other);
      Filter(filters, other)
    else
      assert multiset(filters + [f]) == multiset(filters) + multiset{f};
      filters + [f]
  }

  /** Toggling a tag twice restores exactly which tags are active; a tag that was
      inactive leaves the list exactly as it was. */
  lemma {:induction false} ToggleTwice(filters: seq<string>, f: string)
    ensures forall g :: g in ToggleFilter(ToggleFilter(filters, f), f) <==> g in filters
    ensures f !in filters ==> ToggleFilter(ToggleFilter(filters, f), f) == filters
  {
    if f !in filters {
      var other := (g: string) => g != f;
      assert f in filters + [f];
      FilterAppend(filters, [f], other);
      FilterKeepsAll(filters, other);
      assert Filter([f], other) == [];
      assert ToggleFilter(filters + [f], f) == Filter(filters + [f], other);
    }
  }

  /** The test applied to each survey card: every active filter is among the survey's
      tags (trivially so when none is active), and when the switch is on the survey
      requires World ID. */
  predicate Passes(tags: seq<string>, requiresWorldId: bool, filters: seq<string>, worldcoinOnly: bool)
  {
    (|filters| == 0 || forall f :: f in filters ==> f in tags) && (!worldcoinOnly || requiresWorldId)
  }

  predicate Matches(s: Survey, filters: seq<string>, worldcoinOnly: bool)
  {
    Passes(s.segmentation, WorldIdTag in s.requirements, filters, worldcoinOnly)
  }

  /** `surveys.filter(...)`: the surveys shown, in the order received. */
  function FilteredSurveys(surveys: seq<Survey>, filters: seq<string>, worldcoinOnly: bool): (r: seq<Survey>)
    ensures forall s :: s in r <==>
      && s in surveys
      && (forall f :: f in filters ==> f in s.segmentation)
      && (!worldcoinOnly || WorldIdTag in s.requirements)
    ensures forall s :: s in r ==> multiset(r)[s] == multiset(surveys)[s]
    ensures IsSubsequence(r, surveys)
  {
    var keep := (s: Survey) => Matches(s, filters, worldcoinOnly);
    FilterContents(surveys, keep);
    FilterIsSubsequence(surveys, keep);
    Filter(surveys, keep)
  }

  /** With no active filter and the switch off, every survey is shown. */
  lemma NoFilterShowsAll(surveys: seq<Survey>)
    ensures FilteredSurveys(surveys, [], false) == surveys
  {
    FilterKeepsAll(surveys, (s: Survey) => Matches(s, [], false));
  }

  /** Activating more filters, or turning the switch on, never adds a survey: the new
      list is a subsequence of the old one. */
  lemma FilteringNarrows(surveys: seq<Survey>, filters: seq<string>, worldcoinOnly: bool,
                         filters': seq<string>, worldcoinOnly': bool)
    requires forall f :: f in filters ==> f in filters'
    requires worldcoinOnly ==> worldcoinOnly'
    ensures IsSubsequence(FilteredSurveys(surveys, filters', worldcoinOnly'),
                          FilteredSurveys(surveys, filters, worldcoinOnly))
  {
    FilterMonotone(surveys, (s: Survey) => Matches(s, filters', worldcoinOnly'),
                            (s: Survey) => Matches(s, filters, worldcoinOnly));
  }
}
