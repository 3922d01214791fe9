/** The applicant profile modal an employer opens: the job preferences grouped by category field,
    and the resume viewer it can switch to. */
module ApplicantModal {
  import opened Wrappers
  import opened Lists
  import opened Http

  /** One preference as the modal receives it. */
  datatype PreferenceEntry = PreferenceEntry(fieldName: string, categoryName: string)

  /** The category names filed under `field`, in input order. */
  function NamesIn(prefs: seq<PreferenceEntry>, field: string): (r: seq<string>)
    ensures |r| <= |prefs|
  {
    if |prefs| == 0 then []
    else
      var last := prefs[|prefs| - 1];
      NamesIn(prefs[..|prefs| - 1], field) + (if last.fieldName == field then [last.categoryName] else [])
  }

  /** The field names in the order they first appear: the order of the grouped object's keys. */
  function FieldOrder(prefs: seq<PreferenceEntry>): (r: seq<string>)
    ensures Distinct(r)
  {
    if |prefs| == 0 then []
    else
      var before := FieldOrder(prefs[..|prefs| - 1]);
      var f := prefs[|prefs| - 1].fieldName;
      if f in before then before
      else
        assert forall i :: 0 <= i < |before| ==> (before + [f])[i] == before[i];
        before + [f]
  }

  /** The reduce of the source: one list per field, each preference's name pushed onto its
      field's list. The keys come out in first-appearance order in `fields`. */
  method GroupPreferences(prefs: seq<PreferenceEntry>) returns (fields: seq<string>, groups: map<string, seq<string>>)
    ensures fields == FieldOrder(prefs)
    ensures forall f :: f in groups <==> f in fields
    ensures forall f :: f in groups ==> groups[f] == NamesIn(prefs, f)
  {
    fields := [];
    groups := map[];
    var i := 0;
    while i < |prefs|
      invariant 0 <= i <= |prefs|
      invariant fields == FieldOrder(prefs[..i])
      invariant forall f :: f in groups <==> f in fields
      invariant forall f :: f in groups ==> groups[f] == NamesIn(prefs[..i], f)
    {
      var p := prefs[i];
      GroupStepKeeps(prefs, i, fields, groups);
      var names := if p.fieldName in groups then groups[p.fieldName] else [];
      if p.fieldName !in groups {
        fields := fields + [p.fieldName];
      }
      groups := groups[p.fieldName := names + [p.categoryName]];
      i := i + 1;
    }
    assert prefs[..i] == prefs;
  }

  /** One turn of the loop keeps its invariant. */
  lemma GroupStepKeeps(prefs: seq<PreferenceEntry>, i: nat, fields: seq<string>, groups: map<string, seq<string>>)
    requires i < |prefs|
    requires fields == FieldOrder(prefs[..i])
    requires forall f :: f in groups <==> f in fields
    requires forall f :: f in groups ==> groups[f] == NamesIn(prefs[..i], f)
    ensures var p := prefs[i];
      var fields' := if p.fieldName in groups then fields else fields + [p.fieldName];
      var groups' := groups[p.fieldName := (if p.fieldName in groups then groups[p.fieldName] else []) + [p.categoryName]];
      && fields' == FieldOrder(prefs[..i + 1])
      && (forall f :: f in groups' <==> f in fields')
      && (forall f :: f in groups' ==> groups'[f] == NamesIn(prefs[..i + 1], f))
  {
    var p := prefs[i];
    GroupStep(prefs, i);
    var fields' := if p.fieldName in groups then fields else fields + [p.fieldName];
    var groups' := groups[p.fieldName := (if p.fieldName in groups then groups[p.fieldName] else []) + [p.categoryName]];
    forall f | f in groups'
      ensures groups'[f] == NamesIn(prefs[..i + 1], f)
    {
      if f == p.fieldName {
        assert NamesIn(prefs[..i + 1], f) == NamesIn(prefs[..i], f) + [p.categoryName];
      } else {
        assert NamesIn(prefs[..i + 1], f) == NamesIn(prefs[..i], f);
      }
    }
  }

  /** What one more preference changes: its field joins the keys if new, and its name joins the
      end of its field's list. */
  lemma GroupStep(prefs: seq<PreferenceEntry>, i: nat)
    requires i < |prefs|
    ensures var f := prefs[i].fieldName;
      FieldOrder(prefs[..i + 1]) == FieldOrder(prefs[..i]) + (if f in FieldOrder(prefs[..i]) then [] else [f])
    ensures forall g :: NamesIn(prefs[..i + 1], g) == NamesIn(prefs[..i], g) + (if g == prefs[i].fieldName then [prefs[i].categoryName] else [])
    ensures prefs[i].fieldName !in FieldOrder(prefs[..i]) ==> NamesIn(prefs[..i], prefs[i].fieldName) == []
  {
    assert prefs[..i + 1][..i] == prefs[..i];
    NewFieldIsEmpty(prefs[..i], prefs[i].fieldName);
  }

  /** A field is among the keys exactly when some preference names it. */
  lemma {:induction false} FieldOrderMembers(prefs: seq<PreferenceEntry>, f: string)
    ensures f in FieldOrder(prefs) <==> exists k :: 0 <= k < |prefs| && prefs[k].fieldName == f
  {
    if |prefs| > 0 {
      var init := prefs[..|prefs| - 1];
      FieldOrderMembers(init, f);
      assert forall k :: 0 <= k < |init| ==> init[k] == prefs[k];
    }
  }

  /** A field no preference names yet has an empty list. */
  lemma NewFieldIsEmpty(prefs: seq<PreferenceEntry>, f: string)
    ensures f !in FieldOrder(prefs) ==> NamesIn(prefs, f) == []
  {
    if f !in FieldOrder(prefs) {
      FieldOrderMembers(prefs, f);
      NoneNamed(prefs, f);
    }
  }

  lemma {:induction false} NoneNamed(prefs: seq<PreferenceEntry>, f: string)
    requires forall k :: 0 <= k < |prefs| ==> prefs[k].fieldName != f
    ensures NamesIn(prefs, f) == []
  {
    if |prefs| > 0 {
      NoneNamed(prefs[..|prefs| - 1], f);
    }
  }

  /** Every preference's category name shows under its own field, and nothing else does. */
  lemma {:induction false} NamesInMembers(prefs: seq<PreferenceEntry>, f: string, name: string)
    ensures name in NamesIn(prefs, f) <==> PreferenceEntry(f, name) in prefs
  {
    if |prefs| > 0 {
      var init := prefs[..|prefs| - 1];
      NamesInMembers(init, f, name);
      assert prefs == init + [prefs[|prefs| - 1]];
    }
  }

  /** The number of names shown under the fields `fields`. */
  function Shown(prefs: seq<PreferenceEntry>, fields: seq<string>): nat {
    if |fields| == 0 then 0 else |NamesIn(prefs, fields[0])| + Shown(prefs, fields[1..])
  }

  /** All groups together show every preference once: as many names as preferences. */
  lemma {:induction false} EveryPreferenceShownOnce(prefs: seq<PreferenceEntry>)
    ensures Shown(prefs, FieldOrder(prefs)) == |prefs|
  {
    if |prefs| > 0 {
      var init, p := prefs[..|prefs| - 1], prefs[|prefs| - 1];
      assert prefs == init + [p];
      EveryPreferenceShownOnce(init);
      var before := FieldOrder(init);
      ShownStep(init, p, before);
      if p.fieldName !in before {
        ShownAppend(prefs, before, p.fieldName);
        NewFieldIsEmpty(init, p.fieldName);
      }
    }
  }

  /** One more preference adds one name to the groups shown, when its field is among them. */
  lemma {:induction false} ShownStep(prefs: seq<PreferenceEntry>, p: PreferenceEntry, fields: seq<string>)
    requires Distinct(fields)
    ensures Shown(prefs + [p], fields) == Shown(prefs, fields) + (if p.fieldName in fields then 1 else 0)
  {
    if |fields| > 0 {
      assert (prefs + [p])[..|prefs|] == prefs;
      assert Distinct(fields[1..]);
      ShownStep(prefs, p, fields[1..]);
      assert p.fieldName in fields <==> p.fieldName == fields[0] || p.fieldName in fields[1..];
      if p.fieldName == fields[0] {
        assert fields[0] !in fields[1..];
      }
    }
  }

  lemma {:induction false} ShownAppend(prefs: seq<PreferenceEntry>, fields: seq<string>, f: string)
    ensures Shown(prefs, fields + [f]) == Shown(prefs, fields) + |NamesIn(prefs, f)|
  {
    if |fields| > 0 {
      assert (fields + [f])[1..] == fields[1..] + [f];
      ShownAppend(prefs, fields[1..], f);
    }
  }

  /** What the preferences panel shows. */
  datatype Panel = NoPreferences | Groups(fields: seq<string>, groups: map<string, seq<string>>)

  /** `profile.preferences && profile.preferences.length > 0`: groups, else "No job preferences set". */
  method PreferencesPanel(preferences: Option<seq<PreferenceEntry>>) returns (panel: Panel)
    ensures panel.NoPreferences? <==> preferences.None? || |preferences.value| == 0
    ensures panel.Groups? ==>
      && panel.fields == FieldOrder(preferences.value)
      && (forall f :: f in panel.groups <==> f in panel.fields)
      && (forall f :: f in panel.groups ==> panel.groups[f] == NamesIn(preferences.value, f))
  {
    if preferences.None? || |preferences.value| == 0 {
      return NoPreferences;
    }
    var fields, groups := GroupPreferences(preferences.value);
    panel := Groups(fields, groups);
  }

  /** The part of the applicant's profile the handlers look at. */
  datatype ApplicantProfile = ApplicantProfile(hasResume: bool, preferences: Option<seq<PreferenceEntry>>)

  class ProfileModal {
    const applicantId: string
    var profile: Option<ApplicantProfile>
    var isLoading: bool
    var error: string
    var showResumeViewer: bool
    var resumeUrl: string

    constructor(applicantId: string)
      ensures this.applicantId == applicantId
      ensures profile.None? && isLoading && error == "" && !showResumeViewer && resumeUrl == ""
    {
      this.applicantId := applicantId;
      profile := None;
      isLoading := true;
      error := "";
      showResumeViewer := false;
      resumeUrl := "";
    }

    /** `loadApplicantProfile` once the request has ended (`None`: it threw). */
    method Load(answer: Option<Response<ApplicantProfile>>)
      modifies this
      ensures !isLoading
      ensures answer.Some? && answer.value.Success? ==> profile == Some(answer.value.body) && error == old(error)
      ensures answer.Some? && answer.value.Fail? ==>
        profile == old(profile) && error == OrDefault(Some(answer.value.error), "Failed to load applicant profile")
      ensures answer.None? ==> profile == old(profile) && error == "Network error. Please try again."
      ensures showResumeViewer == old(showResumeViewer) && resumeUrl == old(resumeUrl)
    {
      match answer {
        case None =>
          error := "Network error. Please try again.";
        case Some(Fail(_, message)) =>
          error := OrDefault(Some(message), "Failed to load applicant profile");
        case Some(Success(_, body)) =>
          profile := Some(body);
      }
      isLoading := false;
    }

    /** `handleViewResume`: only an applicant with a resume opens the viewer, on their resume. */
    method ViewResume()
      modifies this
      ensures profile.Some? && profile.value.hasResume ==>
        showResumeViewer && resumeUrl == "/api/profile/resume/" + applicantId
      ensures !(profile.Some? && profile.value.hasResume) ==>
        showResumeViewer == old(showResumeViewer) && resumeUrl == old(resumeUrl)
      ensures profile == old(profile) && isLoading == old(isLoading) && error == old(error)
    {
      if profile.Some? && profile.value.hasResume {
        resumeUrl := "/api/profile/resume/" + applicantId;
        showResumeViewer := true;
      }
    }

    /** `handleCloseResumeViewer`. */
    method CloseResumeViewer()
      modifies this
      ensures !showResumeViewer && resumeUrl == ""
      ensures profile == old(profile) && isLoading == old(isLoading) && error == old(error)
    {
      showResumeViewer := false;
      resumeUrl := "";
    }
  }
}
