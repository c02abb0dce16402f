/** The researcher's list of published surveys
    (app/researcher/dashboard/published/page.tsx): the page shows the stored surveys
    that carry a publication date and lets the researcher close one by id. Closing
    writes the page's list back to storage, which holds only the published surveys, so
    every unpublished stored survey is lost (`PublishedPage.CloseSurvey`);
    `PublishedPage.CloseSurveyInStorage` is the close that keeps them. */
module PublishedDashboard {
  import opened Wrappers
  import opened Seqs
  import opened CreateSurvey

  /** `survey.publishedAt` is truthy: present and not the empty string. */
  predicate IsPublished(s: StoredSurvey)
  {
    s.publishedAt.Some? && s.publishedAt.value != ""
  }

  /** `storedSurveys.filter(survey => survey.publishedAt)`. */
  function PublishedOnly(stored: seq<StoredSurvey>): (r: seq<StoredSurvey>)
    ensures forall s :: s in r <==> s in stored && IsPublished(s)
    ensures forall s :: s in r ==> multiset(r)[s] == multiset(stored)[s]
    ensures IsSubsequence(r, stored)
  {
    FilterContents(stored, IsPublished);
    FilterIsSubsequence(stored, IsPublished);
    Filter(stored, IsPublished)
  }

  /** `surveys.map(survey => survey.id === id ? { ...survey, closed: true } : survey)`:
      position by position, a survey with that id comes back closed, any other comes
      back as it was. */
  function CloseById(surveys: seq<StoredSurvey>, id: string): (r: seq<StoredSurvey>)
    ensures |r| == |surveys|
    ensures forall i :: 0 <= i < |r| ==> r[i].id == surveys[i].id
    ensures forall i :: 0 <= i < |r| && surveys[i].id == id ==> r[i] == surveys[i].(closed := true)
    ensures forall i :: 0 <= i < |r| && surveys[i].id != id ==> r[i] == surveys[i]
  {
    if surveys == [] then []
    else
      var head := if surveys[0].id == id then surveys[0].(closed := true) else surveys[0];
      [head] + CloseById(surveys[1..], id)
  }

  /** After closing, every survey with that id is closed, and closing again changes
      nothing. */
  lemma CloseIdempotent(surveys: seq<StoredSurvey>, id: string)
    ensures forall s :: s in CloseById(surveys, id) && s.id == id ==> s.closed
    ensures CloseById(CloseById(surveys, id), id) == CloseById(surveys, id)
  {
    var once := CloseById(surveys, id);
    var twice := CloseById(once, id);
    forall i | 0 <= i < |once| ensures twice[i] == once[i] {
      if once[i].id == id {
        assert once[i] == surveys[i].(closed := true);
      }
    }
  }

  /** Closing changes only the `closed` flag, so it keeps a survey published or
      unpublished. */
  lemma CloseKeepsPublication(surveys: seq<StoredSurvey>, id: string)
    ensures forall i :: 0 <= i < |surveys| ==>
      (IsPublished(CloseById(surveys, id)[i]) <==> IsPublished(surveys[i]))
  {
  }

  /** Filtering for published surveys and closing by id can be done in either order. */
  lemma {:induction false} PublishedOnlyCloseCommute(stored: seq<StoredSurvey>, id: string)
    ensures PublishedOnly(CloseById(stored, id)) == CloseById(PublishedOnly(stored), id)
  {
    if stored != [] {
      var closed := CloseById(stored, id);
      PublishedOnlyCloseCommute(stored[1..], id);
      assert closed == [closed[0]] + CloseById(stored[1..], id);
      assert stored == [stored[0]] + stored[1..];
      FilterAppend([closed[0]], CloseById(stored[1..], id), IsPublished);
      FilterAppend([stored[0]], stored[1..], IsPublished);
      assert IsPublished(closed[0]) <==> IsPublished(stored[0]);
    }
  }

  /** Filtering for published surveys twice is filtering once. */
  lemma PublishedOnlyIdempotent(stored: seq<StoredSurvey>)
    ensures PublishedOnly(PublishedOnly(stored)) == PublishedOnly(stored)
  {
    FilterIdempotent(stored, IsPublished);
  }

  /** A survey the editor appends has no publication date, so the published list does
      not change. */
  lemma CreatedSurveysAreUnpublished(stored: seq<StoredSurvey>, s: StoredSurvey)
    requires s.publishedAt == None
    ensures PublishedOnly(stored + [s]) == PublishedOnly(stored)
  {
    FilterAppend(stored, [s], IsPublished);
    assert Filter([s], IsPublished) == [];
    assert PublishedOnly(stored) + [] == PublishedOnly(stored);
  }

  /** The button of a card: `'Closed'` exactly for a closed survey. */
  function ButtonLabel(s: StoredSurvey): (r: string)
    ensures r == "Closed" <==> s.closed
    ensures !s.closed ==> r == "Close Survey"
  {
    if s.closed then "Closed" else "Close Survey"
  }

  /** The page's `publishedSurveys` state and the `'surveys'` entry of local storage. */
  class PublishedPage {
    var publishedSurveys: seq<StoredSurvey>
    var stored: seq<StoredSurvey>

    /** What is listed is the published part of what is stored. */
    ghost predicate Valid()
      reads this
    {
      publishedSurveys == PublishedOnly(stored)
    }

    /** The mount effect: the list is the published part of storage. */
    constructor (storage: seq<StoredSurvey>)
      ensures Valid() && stored == storage
    {
      stored := storage;
      publishedSurveys := PublishedOnly(storage);
    }

    /** `closeSurvey(id)` as written: the closed list becomes the page state and is
        also written over the whole stored list. */
    method CloseSurvey(id: string)
      requires Valid()
      modifies this
      ensures Valid()
      ensures publishedSurveys == CloseById(old(publishedSurveys), id)
      ensures stored == publishedSurveys
    {
      var updated := CloseById(publishedSurveys, id);
      PublishedOnlyIdempotent(old(stored));
      PublishedOnlyCloseCommute(publishedSurveys, id);
      publishedSurveys := updated;
      stored := updated;
    }

    /** The close the page evidently means: the survey is closed in storage, where
        every other stored survey, published or not, stays as it was. */
    method CloseSurveyInStorage(id: string)
      requires Valid()
      modifies this
      ensures Valid()
      ensures publishedSurveys == CloseById(old(publishedSurveys), id)
      ensures stored == CloseById(old(stored), id)
    {
      PublishedOnlyCloseCommute(stored, id);
      stored := CloseById(stored, id);
      publishedSurveys := PublishedOnly(stored);
    }
  }

  /** What `CloseSurvey` leaves in storage: the closed published list. No unpublished
      survey survives, whatever id is closed. */
  lemma CloseSurveyDropsUnpublished(stored: seq<StoredSurvey>, id: string)
    ensures forall s :: s in stored && !IsPublished(s) ==> s !in CloseById(PublishedOnly(stored), id)
    ensures |CloseById(PublishedOnly(stored), id)| < |stored| <==> exists s :: s in stored && !IsPublished(s)
  {
    var published := PublishedOnly(stored);
    var after := CloseById(published, id);
    forall s | s in stored && !IsPublished(s) ensures s !in after {
      if s in after {
        var i :| 0 <= i < |after| && after[i] == s;
        CloseKeepsPublication(published, id);
      }
    }
    FilterShorter(stored, IsPublished);
  }

  /** What `CloseSurveyInStorage` leaves in storage: as many surveys as before, every
      unpublished one among them, and the published ones still listed. */
  lemma CloseSurveyInStorageKeepsAll(stored: seq<StoredSurvey>, id: string)
    ensures |CloseById(stored, id)| == |stored|
    ensures forall s :: s in stored && !IsPublished(s) && s.id != id ==> s in CloseById(stored, id)
    ensures PublishedOnly(CloseById(stored, id)) == CloseById(PublishedOnly(stored), id)
  {
    var after := CloseById(stored, id);
    forall s | s in stored && !IsPublished(s) && s.id != id ensures s in after {
      var i :| 0 <= i < |stored| && stored[i] == s;
      assert after[i] == s;
    }
    PublishedOnlyCloseCommute(stored, id);
  }

  /** A store holding a draft and one published survey: closing the published one
      leaves storage with that survey alone, closed. */
  lemma CloseSurveyLosesDraft(draft: StoredSurvey, published: StoredSurvey)
    requires draft.publishedAt == None
    requires published.publishedAt == Some("2024-10-01T00:00:00.000Z") && !published.closed
    ensures CloseById(PublishedOnly([draft, published]), published.id) == [published.(closed := true)]
  {
    assert [draft, published] == [draft] + [published];
    FilterAppend([draft], [published], IsPublished);
    assert Filter([draft], IsPublished) == [];
    assert Filter([published], IsPublished) == [published];
  }
}
