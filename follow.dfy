/** POST /api/companies/follow: a job seeker toggles following a company. */
module FollowRoute {
  import opened Wrappers
  import opened Lists
  import opened Http
  import opened Schema
  import opened Auth

  datatype Toggled = Toggled(message: string, isFollowing: bool)

  /** The row test of `WHERE company_id = $1 AND job_seeker_id = $2`. */
  function FollowPair(companyId: int, seekerId: int): Follow -> bool {
    (f: Follow) => f.companyId == companyId && f.seekerId == seekerId
  }

  function OtherPair(companyId: int, seekerId: int): Follow -> bool {
    (f: Follow) => !(f.companyId == companyId && f.seekerId == seekerId)
  }

  /** The follow relation the table stores, as (company, seeker) pairs. */
  ghost function Pairs(rows: seq<Follow>): set<(int, int)> {
    set f | f in rows :: (f.companyId, f.seekerId)
  }

  function Toggle(t: Tables, header: Option<string>, verify: Verifier, companyId: Option<int>)
    : (out: (Response<Toggled>, Tables))
    ensures out.0.Fail? ==> out.1 == t
    ensures Authenticate(header, verify).NoToken? ==> out.0 == Fail(401, TokenRequired)
    ensures Authenticate(header, verify).BadToken? ==> out.0 == Fail(500, "Failed to follow/unfollow company")
    ensures (Authenticate(header, verify).Caller? && !TruthyId(companyId))
              ==> out.0 == Fail(400, "Company ID is required")
    ensures (Authenticate(header, verify).Caller? && TruthyId(companyId)
             && SeekerOf(t, Authenticate(header, verify).payload.userId).None?)
              ==> out.0 == Fail(403, "Only job seekers can follow companies")
    ensures out.0.Success? <==> (
      && Authenticate(header, verify).Caller? && TruthyId(companyId)
      && SeekerOf(t, Authenticate(header, verify).payload.userId).Some?)
    ensures out.0.Success? ==> out.1.(follows := t.follows) == t
  {
    match Authenticate(header, verify)
    case NoToken => (Fail(401, TokenRequired), t)
    case BadToken => (Fail(500, "Failed to follow/unfollow company"), t)
    case Caller(p) =>
      if !TruthyId(companyId) then (Fail(400, "Company ID is required"), t)
      else match SeekerOf(t, p.userId)
        case None => (Fail(403, "Only job seekers can follow companies"), t)
        case Some(seeker) =>
          if Find(t.follows, FollowPair(companyId.value, seeker.id)).Some? then
            (Success(200, Toggled("Company unfollowed successfully", false)),
             t.(follows := Filter(t.follows, OtherPair(companyId.value, seeker.id))))
          else
            (Success(200, Toggled("Company followed successfully", true)),
             t.(follows := t.follows + [Follow(NextId(FollowIds(t.follows)), companyId.value, seeker.id)]))
  }

  /** The toggle flips exactly the caller's pair in the follow relation: `isFollowing` says
      which way, and every other pair keeps its state. */
  lemma ToggleFlipsPair(t: Tables, header: Option<string>, verify: Verifier, companyId: Option<int>)
    requires Toggle(t, header, verify, companyId).0.Success?
    ensures var (resp, t') := Toggle(t, header, verify, companyId);
      var pair := (companyId.value, SeekerOf(t, Authenticate(header, verify).payload.userId).value.id);
      && resp.body.isFollowing == (pair !in Pairs(t.follows))
      && Pairs(t'.follows) == if resp.body.isFollowing then Pairs(t.follows) + {pair} else Pairs(t.follows) - {pair}
  {
    var (resp, t') := Toggle(t, header, verify, companyId);
    var s := SeekerOf(t, Authenticate(header, verify).payload.userId).value;
    var pair := (companyId.value, s.id);
    if Find(t.follows, FollowPair(companyId.value, s.id)).Some? {
      var f := Find(t.follows, FollowPair(companyId.value, s.id)).value;
      assert pair in Pairs(t.follows) by { assert f in t.follows; }
      forall q | q in Pairs(t'.follows) ensures q in Pairs(t.follows) - {pair} {
        var g :| g in t'.follows && q == (g.companyId, g.seekerId);
        assert OtherPair(companyId.value, s.id)(g);
      }
      forall q | q in Pairs(t.follows) - {pair} ensures q in Pairs(t'.follows) {
        var g :| g in t.follows && q == (g.companyId, g.seekerId);
        assert g in t'.follows;
      }
    } else {
      assert pair !in Pairs(t.follows);
      var added := Follow(NextId(FollowIds(t.follows)), companyId.value, s.id);
      assert t'.follows == t.follows + [added];
      assert added in t'.follows;
      forall q | q in Pairs(t'.follows) ensures q in Pairs(t.follows) + {pair} {
        var g :| g in t'.follows && q == (g.companyId, g.seekerId);
        assert g in t.follows || g == added;
      }
      forall q | q in Pairs(t.follows) ensures q in Pairs(t'.follows) {
        var g :| g in t.follows && q == (g.companyId, g.seekerId);
        assert g in t'.follows;
      }
    }
  }

  /** Two successful toggles in a row give back the follow relation the table started with. */
  lemma ToggleTwiceRestores(t: Tables, header: Option<string>, verify: Verifier, companyId: Option<int>)
    requires Toggle(t, header, verify, companyId).0.Success?
    ensures var t1 := Toggle(t, header, verify, companyId).1;
            && Toggle(t1, header, verify, companyId).0.Success?
            && Pairs(Toggle(t1, header, verify, companyId).1.follows) == Pairs(t.follows)
  {
    var t1 := Toggle(t, header, verify, companyId).1;
    ToggleFlipsPair(t, header, verify, companyId);
    assert t1.seekers == t.seekers;
    ToggleFlipsPair(t1, header, verify, companyId);
  }

  /** No (company, seeker) pair is stored twice. */
  predicate OneFollowPerPair(rows: seq<Follow>) {
    forall i, j :: 0 <= i < j < |rows| ==>
      !(rows[i].companyId == rows[j].companyId && rows[i].seekerId == rows[j].seekerId)
  }

  /** Toggling never stores a pair twice: it removes the pair when present and adds it only when absent. */
  lemma ToggleKeepsOneFollowPerPair(t: Tables, header: Option<string>, verify: Verifier, companyId: Option<int>)
    requires OneFollowPerPair(t.follows)
    ensures OneFollowPerPair(Toggle(t, header, verify, companyId).1.follows)
  {
    var (resp, t') := Toggle(t, header, verify, companyId);
    if resp.Success? && resp.body.isFollowing {
      var s := SeekerOf(t, Authenticate(header, verify).payload.userId).value;
      var added := Follow(NextId(FollowIds(t.follows)), companyId.value, s.id);
      assert t'.follows == t.follows + [added];
      assert forall f :: f in t.follows ==> !FollowPair(companyId.value, s.id)(f);
    } else if resp.Success? {
      var s := SeekerOf(t, Authenticate(header, verify).payload.userId).value;
      FilterKeepsOneFollowPerPair(t.follows, OtherPair(companyId.value, s.id));
    }
  }

  lemma {:induction false} FilterKeepsOneFollowPerPair(rows: seq<Follow>, keep: Follow -> bool)
    requires OneFollowPerPair(rows)
    ensures OneFollowPerPair(Filter(rows, keep))
  {
    if |rows| > 0 {
      FilterKeepsOneFollowPerPair(rows[1..], keep);
      assert OneFollowPerPair(rows[1..]) by {
        forall i, j | 0 <= i < j < |rows| - 1
          ensures !(rows[1..][i].companyId == rows[1..][j].companyId && rows[1..][i].seekerId == rows[1..][j].seekerId)
        {
          assert rows[1..][i] == rows[i + 1] && rows[1..][j] == rows[j + 1];
        }
      }
      var rest := Filter(rows[1..], keep);
      forall x | x in rest ensures !(x.companyId == rows[0].companyId && x.seekerId == rows[0].seekerId) {
        var k :| 0 <= k < |rows[1..]| && rows[1..][k] == x;
        assert rows[k + 1] == x;
      }
    }
  }

  method Post(db: Database, header: Option<string>, verify: Verifier, companyId: Option<int>)
    returns (resp: Response<Toggled>)
    modifies db
    ensures (resp, db.t) == Toggle(old(db.t), header, verify, companyId)
  {
    var session := Authenticate(header, verify);
    if session.NoToken? {
      return Fail(401, TokenRequired);
    }
    if session.BadToken? {
      return Fail(500, "Failed to follow/unfollow company");
    }
    if !TruthyId(companyId) {
      return Fail(400, "Company ID is required");
    }
    var seeker := SeekerOf(db.t, session.payload.userId);
    if seeker.None? {
      return Fail(403, "Only job seekers can follow companies");
    }
    if Find(db.t.follows, FollowPair(companyId.value, seeker.value.id)).Some? {
      db.t := db.t.(follows := Filter(db.t.follows, OtherPair(companyId.value, seeker.value.id)));
      resp := Success(200, Toggled("Company unfollowed successfully", false));
    } else {
      db.t := db.t.(follows := db.t.follows + [Follow(NextId(FollowIds(db.t.follows)), companyId.value,
                                                      seeker.value.id)]);
      resp := Success(200, Toggled("Company followed successfully", true));
    }
  }
}
