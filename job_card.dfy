/** The job card: the preference badge, the shortened description and the category chips. */
module JobCard {
  import opened Wrappers
  import opened Text
  import opened Schema
  import RecommendedRoute

  datatype Badge = PerfectMatch | SimilarField

  /** `getPreferenceMatchBadge`: nothing unless matches are shown and the score is truthy; a
      badge only for the scores 100 and 50. */
  function PreferenceBadge(showPreferenceMatch: bool, score: Option<int>): (r: Option<Badge>)
    ensures r.Some? ==> showPreferenceMatch && TruthyId(score)
    ensures r == Some(PerfectMatch) <==> showPreferenceMatch && score == Some(100)
    ensures r == Some(SimilarField) <==> showPreferenceMatch && score == Some(50)
  {
    if !showPreferenceMatch || !TruthyId(score) then None
    else if score.value == 100 then Some(PerfectMatch)
    else if score.value == 50 then Some(SimilarField)
    else None
  }

  /** What the card shows in its corner: the badge, inside a box drawn only for a positive score. */
  function ShownBadge(showPreferenceMatch: bool, score: Option<int>): (r: Option<Badge>)
    ensures r.Some? <==> showPreferenceMatch && (score == Some(100) || score == Some(50))
  {
    if showPreferenceMatch && score.Some? && score.value > 0 then PreferenceBadge(showPreferenceMatch, score)
    else None
  }

  /** The recommended-jobs route scores 10 or 0, so its rows never carry a badge. */
  lemma RecommendedScoresShowNoBadge(t: Tables, accountId: int, categoryId: int, show: bool)
    ensures ShownBadge(show, Some(RecommendedRoute.Score(t, accountId, categoryId))).None?
  {
  }

  /** `{job.job_description?.substring(0, 120)}...`: at most 120 characters of the description,
      always followed by "..." (which is all that shows when there is no description). */
  function DescriptionText(description: Option<string>): (r: string)
    ensures 3 <= |r| <= 123 && r[|r| - 3..] == "..."
    ensures description.Some? ==> StartsWith(description.value, r[..|r| - 3])
    ensures description.Some? && |description.value| <= 120 ==> r == description.value + "..."
    ensures description.None? ==> r == "..."
    ensures description.Some? && |description.value| > 120 ==>
      |r| == 123 && r == description.value[..120] + "..."
  {
    (if description.Some? then Prefix(description.value, 120) else "") + "..."
  }

  /** One chip per truthy list, each showing `list.split(', ')[0]`. */
  function Chips(categoryFields: Option<string>, jobCategories: Option<string>): (r: seq<string>)
    ensures |r| == (if Truthy(categoryFields) then 1 else 0) + (if Truthy(jobCategories) then 1 else 0)
    ensures forall c :: c in r ==>
      (Truthy(categoryFields) && c == BeforeFirst(categoryFields.value, ", ")) ||
      (Truthy(jobCategories) && c == BeforeFirst(jobCategories.value, ", "))
    ensures Truthy(categoryFields) ==> r[0] == BeforeFirst(categoryFields.value, ", ")
    ensures Truthy(jobCategories) ==> r[|r| - 1] == BeforeFirst(jobCategories.value, ", ")
  {
    (if Truthy(categoryFields) then [BeforeFirst(categoryFields.value, ", ")] else [])
    + (if Truthy(jobCategories) then [BeforeFirst(jobCategories.value, ", ")] else [])
  }

  /** A list aggregated with ", " shows its first name as the chip, provided the names hold no
      comma. */
  lemma {:induction false} FirstChip(first: string, more: string)
    requires ',' !in first
    requires more == "" || StartsWith(more, ", ")
    ensures BeforeFirst(first + more, ", ") == first
    decreases |first|
  {
    var s := first + more;
    if |first| > 0 {
      assert s[0] == first[0] != ',';
      assert s[1..] == first[1..] + more;
      assert ',' !in first[1..];
      FirstChip(first[1..], more);
      assert first == [first[0]] + first[1..];
    } else {
      assert s == more;
    }
  }
}
