/** /api/job-preferences: POST replaces the caller's preferred job categories inside a
    transaction; GET lists them ordered by category name. */
module PreferencesRoute {
  import opened Wrappers
  import opened Lists
  import opened Http
  import opened Schema
  import opened Auth

  /** A job-seeker row of the account whose person exists (the POST's inner join). */
  function SeekerWithPerson(t: Tables, accountId: int): JobSeeker -> bool {
    (s: JobSeeker) => s.accountId == accountId && PersonById(t, s.personId).Some?
  }

  /** The person_id of `Account JOIN Job_seeker JOIN Person WHERE account_id`, first row. */
  function PersonOfSeeker(t: Tables, accountId: int): (r: Option<int>)
    ensures r.Some? ==> AccountById(t, accountId).Some? && PersonById(t, r.value).Some?
  {
    if AccountById(t, accountId).None? then None
    else match Find(t.seekers, SeekerWithPerson(t, accountId))
      case None => None
      case Some(s) => Some(s.personId)
  }

  function OfPerson(personId: int): Preference -> bool {
    (p: Preference) => p.personId == personId
  }

  function NotOfPerson(personId: int): Preference -> bool {
    (p: Preference) => p.personId != personId
  }

  /** The rows the loop inserts, one per category id, in order. */
  function PreferenceRows(personId: int, ids: seq<int>): (r: seq<Preference>)
    ensures |r| == |ids|
    ensures forall k :: 0 <= k < |ids| ==> r[k] == Preference(personId, ids[k])
  {
    seq(|ids|, k requires 0 <= k < |ids| => Preference(personId, ids[k]))
  }

  lemma PreferenceRowsExtend(personId: int, ids: seq<int>, i: nat)
    requires i < |ids|
    ensures PreferenceRows(personId, ids[..i + 1]) == PreferenceRows(personId, ids[..i]) + [Preference(personId, ids[i])]
  {
  }

  /** A person's preferred category ids, in table order. */
  function CategoriesOf(rows: seq<Preference>, personId: int): (r: seq<int>)
    ensures |r| == |Filter(rows, OfPerson(personId))|
  {
    var mine := Filter(rows, OfPerson(personId));
    seq(|mine|, k requires 0 <= k < |mine| => mine[k].categoryId)
  }

  const SaveFailed := "Failed to save preferences"
  const NoCategories := "At least one category must be selected"
  const NoSeeker := "Job seeker profile not found"
  const Saved := "Preferences saved successfully"
  const FetchFailed := "Failed to fetch preferences"

  /** The POST handler. `fault` is the position of the INSERT that raises, if one does; the
      catch block then rolls the transaction back. */
  function Save(t: Tables, header: Option<string>, verify: Verifier, categoryIds: Option<seq<int>>,
                fault: Option<nat>): (out: (Response<string>, Tables))
    ensures out.0.Fail? ==> out.1 == t
    ensures Authenticate(header, verify).NoToken? ==> out.0 == Fail(401, TokenRequired)
    ensures Authenticate(header, verify).BadToken? ==> out.0 == Fail(500, SaveFailed)
    ensures (Authenticate(header, verify).Caller? && (categoryIds.None? || |categoryIds.value| == 0))
              ==> out.0 == Fail(400, NoCategories)
    ensures (Authenticate(header, verify).Caller? && categoryIds.Some? && |categoryIds.value| > 0
             && PersonOfSeeker(t, Authenticate(header, verify).payload.userId).None?)
              ==> out.0 == Fail(404, NoSeeker)
    ensures out.0.Success? <==> (
      && Authenticate(header, verify).Caller? && categoryIds.Some? && |categoryIds.value| > 0
      && PersonOfSeeker(t, Authenticate(header, verify).payload.userId).Some?
      && (fault.None? || fault.value >= |categoryIds.value|))
  {
    match Authenticate(header, verify)
    case NoToken => (Fail(401, TokenRequired), t)
    case BadToken => (Fail(500, SaveFailed), t)
    case Caller(p) =>
      if categoryIds.None? || |categoryIds.value| == 0 then (Fail(400, NoCategories), t)
      else match PersonOfSeeker(t, p.userId)
        case None => (Fail(404, NoSeeker), t)
        case Some(personId) =>
          if fault.Some? && fault.value < |categoryIds.value| then (Fail(500, SaveFailed), t)
          else
            (Success(200, Saved),
             t.(preferences := Filter(t.preferences, NotOfPerson(personId))
                               + PreferenceRows(personId, categoryIds.value)))
  }

  /** After a successful save the person's preferences are exactly the submitted ids, in the
      submitted order, every other person's preferences are as before, and no other table changes. */
  lemma SaveReplacesSelection(t: Tables, header: Option<string>, verify: Verifier,
                              categoryIds: Option<seq<int>>, fault: Option<nat>)
    requires Save(t, header, verify, categoryIds, fault).0.Success?
    ensures var t' := Save(t, header, verify, categoryIds, fault).1;
      var personId := PersonOfSeeker(t, Authenticate(header, verify).payload.userId).value;
      && t'.(preferences := t.preferences) == t
      && CategoriesOf(t'.preferences, personId) == categoryIds.value
      && forall q :: q != personId ==> Filter(t'.preferences, OfPerson(q)) == Filter(t.preferences, OfPerson(q))
  {
    var t' := Save(t, header, verify, categoryIds, fault).1;
    var personId := PersonOfSeeker(t, Authenticate(header, verify).payload.userId).value;
    assert t' == t.(preferences := Filter(t.preferences, NotOfPerson(personId))
                                   + PreferenceRows(personId, categoryIds.value));
    ReplacedRows(t.preferences, personId, categoryIds.value);
  }

  /** Deleting a person's rows and appending new ones for the ids: the person's rows are the new
      ones, with exactly those category ids, and every other person's rows stay. */
  lemma ReplacedRows(rows: seq<Preference>, personId: int, ids: seq<int>)
    ensures var rows' := Filter(rows, NotOfPerson(personId)) + PreferenceRows(personId, ids);
      && CategoriesOf(rows', personId) == ids
      && forall q :: q != personId ==> Filter(rows', OfPerson(q)) == Filter(rows, OfPerson(q))
  {
    var kept := Filter(rows, NotOfPerson(personId));
    var added := PreferenceRows(personId, ids);
    ReplacedOwnRows(rows, personId, ids);
    var c := CategoriesOf(kept + added, personId);
    assert |c| == |ids|;
    assert forall k :: 0 <= k < |ids| ==> c[k] == added[k].categoryId == ids[k];
    forall q | q != personId
      ensures Filter(kept + added, OfPerson(q)) == Filter(rows, OfPerson(q))
    {
      ReplacedOtherRows(rows, personId, ids, q);
    }
  }

  lemma ReplacedOwnRows(rows: seq<Preference>, personId: int, ids: seq<int>)
    ensures Filter(Filter(rows, NotOfPerson(personId)) + PreferenceRows(personId, ids), OfPerson(personId))
            == PreferenceRows(personId, ids)
  {
    var kept := Filter(rows, NotOfPerson(personId));
    var added := PreferenceRows(personId, ids);
    FilterAppend(kept, added, OfPerson(personId));
    FilterNone(kept, OfPerson(personId));
    FilterAll(added, OfPerson(personId));
  }

  lemma ReplacedOtherRows(rows: seq<Preference>, personId: int, ids: seq<int>, q: int)
    requires q != personId
    ensures Filter(Filter(rows, NotOfPerson(personId)) + PreferenceRows(personId, ids), OfPerson(q))
            == Filter(rows, OfPerson(q))
  {
    var kept := Filter(rows, NotOfPerson(personId));
    var added := PreferenceRows(personId, ids);
    FilterAppend(kept, added, OfPerson(q));
    FilterNone(added, OfPerson(q));
    FilterFilter(rows, NotOfPerson(personId), OfPerson(q));
  }

  /** The transaction: DELETE the person's rows, then INSERT one row per id; a raising INSERT
      rolls every change back. */
  method Replace(db: Database, personId: int, ids: seq<int>, fault: Option<nat>) returns (committed: bool)
    modifies db
    ensures committed <==> fault.None? || fault.value >= |ids|
    ensures db.t == if committed then old(db.t).(preferences := Filter(old(db.t.preferences), NotOfPerson(personId))
                                                                 + PreferenceRows(personId, ids))
                    else old(db.t)
  {
    var saved := db.t;
    var kept := Filter(db.t.preferences, NotOfPerson(personId));
    db.t := db.t.(preferences := kept);
    var added := [];
    var i := 0;
    while i < |ids|
      invariant 0 <= i <= |ids|
      invariant fault.Some? ==> fault.value >= i
      invariant added == PreferenceRows(personId, ids[..i])
      invariant db.t == saved.(preferences := kept + added)
    {
      if fault == Some(i) {
        db.t := saved;
        return false;
      }
      PreferenceRowsExtend(personId, ids, i);
      added := added + [Preference(personId, ids[i])];
      db.t := db.t.(preferences := kept + added);
      i := i + 1;
    }
    assert ids[..i] == ids;
    return true;
  }

  method Post(db: Database, header: Option<string>, verify: Verifier, categoryIds: Option<seq<int>>,
              fault: Option<nat>) returns (resp: Response<string>)
    modifies db
    ensures (resp, db.t) == Save(old(db.t), header, verify, categoryIds, fault)
  {
    var session := Authenticate(header, verify);
    if session.NoToken? {
      return Fail(401, TokenRequired);
    }
    if session.BadToken? {
      return Fail(500, SaveFailed);
    }
    if categoryIds.None? || |categoryIds.value| == 0 {
      return Fail(400, NoCategories);
    }
    var person := PersonOfSeeker(db.t, session.payload.userId);
    if person.None? {
      return Fail(404, NoSeeker);
    }
    var committed := Replace(db, person.value, categoryIds.value, fault);
    if committed {
      resp := Success(200, Saved);
    } else {
      resp := Fail(500, SaveFailed);
    }
  }

  /** The GET join for one preference row: its category, when the row belongs to a person of one
      of the caller's job-seeker rows and the category exists. */
  predicate CallerPerson(t: Tables, accountId: int, personId: int) {
    && AccountById(t, accountId).Some? && PersonById(t, personId).Some?
    && exists s :: s in t.seekers && s.personId == personId && s.accountId == accountId
  }

  function Joined(t: Tables, accountId: int, rows: seq<Preference>): (r: seq<JobCategory>)
    ensures forall c :: c in r <==> exists k :: 0 <= k < |rows| && CallerPerson(t, accountId, rows[k].personId)
                                                 && CategoryById(t, rows[k].categoryId) == Some(c)
  {
    if |rows| == 0 then []
    else
      var rest := Joined(t, accountId, rows[1..]);
      var c := CategoryById(t, rows[0].categoryId);
      assert forall k :: 0 < k < |rows| ==> rows[k] == rows[1..][k - 1];
      if CallerPerson(t, accountId, rows[0].personId) && c.Some? then [c.value] + rest else rest
  }

  function CategoryNameKey(c: JobCategory): seq<int> {
    CharCodes(c.name)
  }

  /** The GET handler: the caller's preferred categories ordered by name. */
  function Load(t: Tables, header: Option<string>, verify: Verifier): (r: Response<seq<JobCategory>>)
    ensures Authenticate(header, verify).NoToken? ==> r == Fail(401, TokenRequired)
    ensures Authenticate(header, verify).BadToken? ==> r == Fail(500, FetchFailed)
    ensures Authenticate(header, verify).Caller? ==> r.Success? && r.status == 200
    ensures r.Success? ==>
      && Authenticate(header, verify).Caller?
      && SortedBy(r.body, CategoryNameKey)
      && multiset(r.body) == multiset(Joined(t, Authenticate(header, verify).payload.userId, t.preferences))
  {
    match Authenticate(header, verify)
    case NoToken => Fail(401, TokenRequired)
    case BadToken => Fail(500, FetchFailed)
    case Caller(p) => Success(200, SortBy(Joined(t, p.userId, t.preferences), CategoryNameKey))
  }
}
