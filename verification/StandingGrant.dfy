/**
 * The standing-grant resolver: loops over an issue's comments that decide whether the owner's grant
 * is in force, restricted, released or stopped.
 */
module StandingGrant {
  import opened Common

  /** A comment identity: an integer, or any other value, which nothing can refer to. */
  datatype Id = Number(number: nat) | Opaque(value: nat)

  const GRANT_NUMBER := 5522755269
  const GRANT_ID := Number(GRANT_NUMBER)
  const GRANT_DIGEST: nat := 0xab068ff3c70bc8a09254357026c89ddda64af2a26f4e951513d8bbfde3092459

  /** The exact API address of the issue, another address that contains its path, or one that does not. */
  datatype Url = Exact | Containing(value: nat) | Elsewhere(value: nat)

  /** The decoded members of a release: exact key set, grant reference, target number, target body digest. */
  datatype Release = Release(exactKeys: bool, grantReference: Option<nat>, target: Option<nat>, bodyDigest: nat)

  datatype Action =
    | NoAction | ReleaseAction(release: Release) | StopAction | RevokeAction | RestrictAction | UnknownAction

  /** `tokens` is whether the text contains any restriction token. */
  datatype Body = Unresolved | Text(digest: nat, action: Action, tokens: bool)

  /** `complete` is whether every required field, and the author's login and number, is present. */
  datatype Comment = Comment(
    id: Id, complete: bool, owner: bool, url: Url, createdAt: Option<nat>, updatedAt: Option<nat>, body: Body)

  /** The dictionary of comments by identity keeps the last one of each. */
  function ById(comments: seq<Comment>, id: Id): (r: Option<Comment>)
    ensures r.Some? ==> r.value in comments && r.value.id == id
    ensures r.None? ==> forall c :: c in comments ==> c.id != id
  {
    if comments == [] then None
    else if comments[|comments| - 1].id == id then Some(comments[|comments| - 1])
    else ById(comments[..|comments| - 1], id)
  }

  predicate IsRelease(c: Comment) { c.owner && c.body.Text? && c.body.action.ReleaseAction? }

  /** A restriction that can be lifted: the owner's, on the same issue, without any token. */
  predicate Releasable(target: Comment, url: Url, digest: nat) {
    && target.owner && target.url == url
    && target.body.Text? && target.body.action.RestrictAction? && !target.body.tokens && target.body.digest == digest
  }

  /** A release that names its target exactly: later, unedited, on the issue, with the target's bytes. */
  predicate ExactRelease(c: Comment, target: Option<Comment>)
    requires IsRelease(c)
  {
    var r := c.body.action.release;
    && r.exactKeys && r.grantReference == Some(GRANT_NUMBER)
    && target.Some? && r.target.Some? && target.value.id == Number(r.target.value)
    && c.id.Number? && c.id.number > r.target.value
    && c.createdAt.Some? && c.createdAt == c.updatedAt && c.url.Exact?
    && Releasable(target.value, c.url, r.bodyDigest)
  }

  function TargetOf(comments: seq<Comment>, c: Comment): Option<Comment>
    requires IsRelease(c)
  {
    var t := c.body.action.release.target;
    if t.None? then None else ById(comments, Number(t.value))
  }

  predicate GrantInForce(g: Comment) {
    && !g.url.Elsewhere? && g.owner && g.body.Text? && g.body.digest == GRANT_DIGEST && g.createdAt == g.updatedAt
  }

  /** A comment the final loop lets pass. */
  predicate Harmless(c: Comment, released: set<nat>) {
    || c.id == GRANT_ID || !c.owner
    || (c.body.Text?
        && (c.body.action.ReleaseAction? || (c.id.Number? && c.id.number in released)
            || (c.body.action.NoAction? && !c.body.tokens)))
  }

  // ----- the loops

  /** The targets of all releases, or nothing if any release is not exact. */
  method ReleasedRestrictions(comments: seq<Comment>) returns (r: Option<set<nat>>)
    ensures r.Some? <==> forall c :: c in comments && IsRelease(c) ==> ExactRelease(c, TargetOf(comments, c))
    ensures r.Some? ==> forall n :: n in r.value <==>
              exists c :: c in comments && IsRelease(c) && c.body.action.release.target == Some(n)
  {
    var released: set<nat> := {};
    for i := 0 to |comments|
      invariant forall j :: 0 <= j < i && IsRelease(comments[j]) ==> ExactRelease(comments[j], TargetOf(comments, comments[j]))
      invariant forall n :: n in released <==>
                  exists j :: 0 <= j < i && IsRelease(comments[j]) && comments[j].body.action.release.target == Some(n)
    {
      var c := comments[i];
      if !IsRelease(c) { continue; }
      if !ExactRelease(c, TargetOf(comments, c)) { return None; }
      released := released + {c.body.action.release.target.value};
    }
    forall n ensures n in released <==> exists c :: c in comments && IsRelease(c) && c.body.action.release.target == Some(n) {
      if c :| c in comments && IsRelease(c) && c.body.action.release.target == Some(n) {
        var j :| 0 <= j < |comments| && comments[j] == c;
      }
    }
    r := Some(released);
  }

  /** The whole verdict as the loops compute it. */
  method VerifyStandingGrant(comments: seq<Comment>) returns (ok: bool)
    ensures ok <==> Accepts(comments)
  {
    var grant: Option<Comment> := None;
    for i := 0 to |comments|
      invariant forall j :: 0 <= j < i ==> comments[j].complete
      invariant grant == ById(comments[..i], GRANT_ID)
    {
      assert comments[..i + 1][..i] == comments[..i];
      if !comments[i].complete { assert comments[i] in comments; return false; }
      if comments[i].id == GRANT_ID { grant := Some(comments[i]); }
    }
    assert comments[..|comments|] == comments;
    if grant.None? || !GrantInForce(grant.value) { return false; }
    var released := ReleasedRestrictions(comments);
    if released.None? { return false; }
    assert released.value == Released(comments) by { ReleasedIs(comments, released.value); }
    for i := 0 to |comments|
      invariant forall j :: 0 <= j < i ==> Harmless(comments[j], released.value)
    {
      if !Harmless(comments[i], released.value) { assert comments[i] in comments; return false; }
    }
    ok := true;
  }

  // ----- the verdict as a statement about the comments

  ghost function Released(comments: seq<Comment>): set<nat> {
    set c | c in comments && IsRelease(c) && c.body.action.release.target.Some? :: c.body.action.release.target.value
  }

  lemma ReleasedIs(comments: seq<Comment>, released: set<nat>)
    requires forall n :: n in released <==>
               exists c :: c in comments && IsRelease(c) && c.body.action.release.target == Some(n)
    ensures released == Released(comments)
  {
    forall n ensures n in released <==> n in Released(comments) {
      if n in released {
        var c :| c in comments && IsRelease(c) && c.body.action.release.target == Some(n);
      }
    }
  }

  ghost predicate Accepts(comments: seq<Comment>) {
    var grant := ById(comments, GRANT_ID);
    && (forall c :: c in comments ==> c.complete)
    && grant.Some? && GrantInForce(grant.value)
    && (forall c :: c in comments && IsRelease(c) ==> ExactRelease(c, TargetOf(comments, c)))
    && (forall c :: c in comments ==> Harmless(c, Released(comments)))
  }

  /** The same verdict with no order in it: a statement about a set of comments. */
  ghost predicate InForce(all: set<Comment>) {
    && (exists g :: g in all && g.id == GRANT_ID && GrantInForce(g))
    && (forall c :: c in all ==> Passes(all, c))
  }

  /** What each comment must satisfy among the others. */
  ghost predicate Passes(all: set<Comment>, c: Comment) {
    && c.complete
    && (IsRelease(c) ==> Supported(all, c))
    && (c.owner && c.id != GRANT_ID ==> c.body.Text? && (c.body.action.ReleaseAction? || Cleared(all, c)))
  }

  /** A release whose exact target is present. */
  ghost predicate Supported(all: set<Comment>, c: Comment)
    requires IsRelease(c)
  {
    exists t :: t in all && ExactRelease(c, Some(t))
  }

  /** An owner comment that says nothing restrictive, or a restriction that an exact later release lifts. */
  ghost predicate Cleared(all: set<Comment>, c: Comment)
    requires c.body.Text?
  {
    || (c.body.action.NoAction? && !c.body.tokens)
    || exists r :: r in all && IsRelease(r) && ExactRelease(r, Some(c))
  }

  ghost predicate DistinctIds(comments: seq<Comment>) {
    forall i, j :: 0 <= i < j < |comments| ==> comments[i].id != comments[j].id
  }

  function Members(comments: seq<Comment>): set<Comment> { set c | c in comments }

  lemma SameIdSame(comments: seq<Comment>, a: Comment, b: Comment)
    requires DistinctIds(comments) && a in comments && b in comments && a.id == b.id
    ensures a == b
  {
  }

  lemma ByIdIs(comments: seq<Comment>, c: Comment)
    requires DistinctIds(comments) && c in comments
    ensures ById(comments, c.id) == Some(c)
  {
    SameIdSame(comments, ById(comments, c.id).value, c);
  }

  lemma ReleaseTargets(comments: seq<Comment>, c: Comment)
    requires DistinctIds(comments) && c in comments && IsRelease(c)
    ensures ExactRelease(c, TargetOf(comments, c)) <==> Supported(Members(comments), c)
  {
    if t :| t in comments && ExactRelease(c, Some(t)) { ByIdIs(comments, t); }
  }

  /** With every release exact, the released numbers are those of comments some exact release lifts. */
  lemma ReleasedCleared(comments: seq<Comment>, c: Comment)
    requires DistinctIds(comments) && c in comments && c.body.Text? && c.id != GRANT_ID
    requires forall x :: x in comments && IsRelease(x) ==> ExactRelease(x, TargetOf(comments, x))
    ensures (c.id.Number? && c.id.number in Released(comments)) <==>
            exists r :: r in Members(comments) && IsRelease(r) && ExactRelease(r, Some(c))
  {
    if c.id.Number? && c.id.number in Released(comments) {
      var r :| r in comments && IsRelease(r) && r.body.action.release.target == Some(c.id.number);
      ByIdIs(comments, c);
      assert r in Members(comments) && ExactRelease(r, Some(c));
    }
  }

  /** On lists with distinct identities the loops decide the order-free statement. */
  lemma AcceptsIsInForce(comments: seq<Comment>)
    requires DistinctIds(comments)
    ensures Accepts(comments) <==> InForce(Members(comments))
  {
    var all := Members(comments);
    forall c ensures c in comments <==> c in all {}
    forall c | c in comments && IsRelease(c)
      ensures ExactRelease(c, TargetOf(comments, c)) <==> Supported(all, c)
    {
      ReleaseTargets(comments, c);
    }
    forall g | g in comments && g.id == GRANT_ID ensures ById(comments, GRANT_ID) == Some(g) { ByIdIs(comments, g); }
    if forall x :: x in comments && IsRelease(x) ==> ExactRelease(x, TargetOf(comments, x)) {
      forall c | c in comments && c.owner && c.id != GRANT_ID && c.body.Text?
        ensures Harmless(c, Released(comments)) <==> c.body.action.ReleaseAction? || Cleared(all, c)
      {
        ReleasedCleared(comments, c);
      }
      assert (forall c :: c in comments ==> Passes(all, c)) <==>
             (forall c :: c in comments ==> c.complete && Harmless(c, Released(comments)));
    } else {
      var x :| x in comments && IsRelease(x) && !ExactRelease(x, TargetOf(comments, x));
      assert !Passes(all, x);
    }
  }

  /** The verdict does not depend on the order of the comments. */
  lemma OrderIrrelevant(a: seq<Comment>, b: seq<Comment>)
    requires DistinctIds(a) && DistinctIds(b) && Members(a) == Members(b)
    ensures Accepts(a) <==> Accepts(b)
  {
    AcceptsIsInForce(a);
    AcceptsIsInForce(b);
  }

  /** A complete comment by anyone but the owner changes nothing, wherever it stands. */
  lemma OthersIrrelevant(all: set<Comment>, c: Comment)
    requires c.complete && !c.owner && c !in all
    ensures InForce(all + {c}) <==> InForce(all)
  {
    var more := all + {c};
    assert !IsRelease(c);
    forall r, t | IsRelease(r) && ExactRelease(r, Some(t)) ensures t != c {}
    forall x | x in all && x.body.Text? ensures Cleared(more, x) <==> Cleared(all, x) {}
    forall x | x in all && IsRelease(x)
      ensures Supported(more, x) <==> Supported(all, x)
    {}
  }

  // ----- what blocks, and what unblocks

  /** An owner comment other than the grant that no release can lift. */
  predicate Final(c: Comment) {
    && c.owner && c.id != GRANT_ID
    && (c.body.Unresolved? || c.body.action.UnknownAction? || c.body.action.StopAction? || c.body.action.RevokeAction?
        || (c.body.tokens && !c.body.action.ReleaseAction?)
        || (c.body.action.RestrictAction? && (!c.url.Exact? || !c.id.Number?)))
  }

  /** A stop, a revocation, a token or unresolved content refuses every list that contains it, for ever. */
  lemma FinalBlocks(all: set<Comment>, c: Comment)
    requires Final(c) && c in all
    ensures !InForce(all)
  {
    if c.body.Text? {
      assert forall r :: r in all && IsRelease(r) ==> !ExactRelease(r, Some(c));
    }
  }

  /** Equal digests are equal texts, the grant's included, and identities are distinct. */
  ghost predicate Possible(all: set<Comment>, g: Comment) {
    && (forall x, y :: x in all && y in all && x.id == y.id ==> x == y)
    && (forall x, y :: x in all + {g} && y in all + {g} && SameDigest(x, y) ==> x.body == y.body)
  }

  predicate SameDigest(x: Comment, y: Comment) { x.body.Text? && y.body.Text? && x.body.digest == y.body.digest }

  /** A release that cannot be exact whatever it is listed with. */
  predicate Inexact(c: Comment)
    requires IsRelease(c)
  {
    var r := c.body.action.release;
    || !r.exactKeys || r.grantReference != Some(GRANT_NUMBER)
    || r.target.None? || r.target == Some(GRANT_NUMBER)
    || !c.id.Number? || c.id.number <= r.target.value
    || c.createdAt.None? || c.createdAt != c.updatedAt || !c.url.Exact?
    || r.bodyDigest == GRANT_DIGEST || r.bodyDigest == c.body.digest
  }

  /** What an owner comment other than the grant refuses by itself. */
  predicate Refusing(c: Comment) { !c.complete || Final(c) || (IsRelease(c) && Inexact(c)) }

  /** The grant can be in force and reads as no action. */
  ghost predicate Grants(g: Comment) { g.id == GRANT_ID && g.complete && GrantInForce(g) && g.body.action.NoAction? }

  lemma InexactNamesNothing(all: set<Comment>, c: Comment, g: Comment, t: Comment, h: Comment)
    requires Grants(g) && Possible(all, g) && c in all && IsRelease(c) && Inexact(c)
    requires t in all && h in all && h.id == GRANT_ID && GrantInForce(h)
    ensures !ExactRelease(c, Some(t))
  {
    assert SameDigest(h, g);
    assert t.id == h.id ==> t == h;
    assert SameDigest(t, g) ==> t.body == g.body;
    assert SameDigest(t, c) ==> t.body == c.body;
  }

  /** A release that cannot be exact refuses every possible list that contains it. */
  lemma InexactBlocks(all: set<Comment>, c: Comment, g: Comment)
    requires Grants(g) && Possible(all, g) && c in all && IsRelease(c) && Inexact(c)
    ensures !InForce(all)
  {
    forall h, t | h in all && h.id == GRANT_ID && GrantInForce(h) && t in all ensures !ExactRelease(c, Some(t)) {
      InexactNamesNothing(all, c, g, t, h);
    }
    assert Passes(all, c) ==> Supported(all, c);
  }

  /** A restriction that can be lifted stands in an accepted list, next to a release of it. */
  lemma RestrictionCanPass(c: Comment, g: Comment) returns (all: set<Comment>)
    requires Grants(g) && Possible({c, g}, g) && c.owner && c.id != GRANT_ID && !Refusing(c)
    requires c.body.Text? && c.body.action.RestrictAction?
    ensures c in all && Possible(all, g) && InForce(all)
  {
    var n := if c.id.number >= GRANT_NUMBER then c.id.number + 1 else GRANT_NUMBER + 1;
    var r := Comment(Number(n), true, true, Exact, Some(0), Some(0),
                     Text(c.body.digest + GRANT_DIGEST + 1,
                          ReleaseAction(Release(true, Some(GRANT_NUMBER), Some(c.id.number), c.body.digest)), false));
    all := {c, g, r};
    assert ExactRelease(r, Some(c));
    assert Cleared(all, c) && Supported(all, r);
  }

  /** A release that can be exact stands in an accepted list, next to the restriction it names. */
  lemma ReleaseCanPass(c: Comment, g: Comment) returns (all: set<Comment>)
    requires Grants(g) && Possible({c, g}, g) && c.owner && c.id != GRANT_ID && !Refusing(c)
    requires IsRelease(c)
    ensures c in all && Possible(all, g) && InForce(all)
  {
    var r := c.body.action.release;
    var t := Comment(Number(r.target.value), true, true, Exact, Some(0), Some(0), Text(r.bodyDigest, RestrictAction, false));
    all := {c, g, t};
    assert ExactRelease(c, Some(t));
    assert Cleared(all, t) && Supported(all, c);
  }

  /** An owner comment, of any kind, refuses every list that can contain it exactly when it does so by itself. */
  lemma RefusingIsExact(c: Comment, g: Comment)
    requires Grants(g) && Possible({c, g}, g) && c.owner && c.id != GRANT_ID
    ensures (forall all: set<Comment> :: c in all && Possible(all, g) ==> !InForce(all)) <==> Refusing(c)
  {
    if Refusing(c) {
      forall all: set<Comment> | c in all && Possible(all, g) ensures !InForce(all) {
        if !c.complete {
          assert !Passes(all, c);
        } else if Final(c) {
          FinalBlocks(all, c);
        } else {
          InexactBlocks(all, c, g);
        }
      }
    } else if IsRelease(c) {
      var all := ReleaseCanPass(c, g);
    } else if c.body.action.RestrictAction? {
      var all := RestrictionCanPass(c, g);
    } else {
      assert Cleared({c, g}, c);
      assert InForce({c, g});
    }
  }

  /**
   * A token-bearing owner comment refuses every list that can contain it, unless it decodes to a release
   * that can be exact: then, and only then, some list that contains it is accepted.
   */
  lemma TokenRefuses(c: Comment, g: Comment)
    requires Grants(g) && Possible({c, g}, g) && c.owner && c.complete && c.id != GRANT_ID
    requires c.body.Text? && c.body.tokens
    ensures (forall all: set<Comment> :: c in all && Possible(all, g) ==> !InForce(all)) <==>
            !c.body.action.ReleaseAction? || Inexact(c)
  {
    RefusingIsExact(c, g);
  }

  /** A plain restriction blocks exactly until an exact later release of it is present. */
  lemma RestrictionNeedsRelease(all: set<Comment>, c: Comment)
    requires c in all && c.owner && c.id != GRANT_ID && c.body.Text? && c.body.action.RestrictAction?
    requires InForce(all)
    ensures exists r :: r in all && IsRelease(r) && ExactRelease(r, Some(c))
    ensures !c.body.tokens
  {
    assert Cleared(all, c);
    hide InForce;
    var r :| r in all && IsRelease(r) && ExactRelease(r, Some(c));
  }

  /** With its release, a restriction no longer blocks a list that was accepted without it. */
  lemma ReleaseUnblocks(all: set<Comment>, c: Comment, r: Comment, with: set<Comment>)
    requires InForce(all) && all <= with && c in with && r in with
    requires forall x :: x in with ==> x in all || x == c || x == r
    requires c.complete && c.owner && c.id != GRANT_ID && c.body.Text? && c.body.action.RestrictAction?
    requires r.complete && IsRelease(r) && ExactRelease(r, Some(c)) && r.id != GRANT_ID
    ensures InForce(with)
  {
    forall x | x in with ensures Passes(with, x) {
      if x in all {
        PassesGrows(all, with, x);
      } else if x == c {
        assert Cleared(with, c);
      } else {
        assert Supported(with, r);
      }
    }
  }

  lemma PassesGrows(all: set<Comment>, with: set<Comment>, x: Comment)
    requires all <= with && Passes(all, x)
    ensures Passes(with, x)
  {
  }

  /**
   * Such a list. A release has exactly four members, and none of their accepted values holds a token, so
   * the text repeats a key: decoding keeps the last value of a repeated key, while the tokens are searched
   * for in the bytes. Where `"standing_grant_reference": "REVOKES_COMMENT_5522755269"` is followed by the same
   * key with the number, the text decodes to an exact release; it is taken, and its bytes are never searched.
   */
  lemma TokenInReleasePasses(g: Comment)
    requires Grants(g)
    ensures var c := Comment(Number(1), true, true, Exact, Some(0), Some(0), Text(7, RestrictAction, false));
            var r := Comment(Number(2), true, true, Exact, Some(0), Some(0),
                             Text(8, ReleaseAction(Release(true, Some(GRANT_NUMBER), Some(1), 7)), true));
            r.body.tokens && Possible({g, c, r}, g) && InForce({g, c, r})
  {
    var c := Comment(Number(1), true, true, Exact, Some(0), Some(0), Text(7, RestrictAction, false));
    var r := Comment(Number(2), true, true, Exact, Some(0), Some(0),
                     Text(8, ReleaseAction(Release(true, Some(GRANT_NUMBER), Some(1), 7)), true));
    assert ExactRelease(r, Some(c));
    assert Cleared({g, c, r}, c);
  }

  // ----- the grant and the release, written out

  /**
   * With nothing else from the owner, a list is accepted exactly when it holds the owner's comment
   * 5522755269 with the granted text, never edited, at an address that contains the issue's path, and that
   * comment is not itself a release.
   */
  lemma GrantMeans(comments: seq<Comment>)
    requires DistinctIds(comments)
    requires forall c :: c in comments ==> c.complete && (c.owner ==> c.id == Number(5522755269))
    ensures Accepts(comments) <==>
            exists g :: g in comments && g.id == Number(5522755269) && Granted(g) && !g.body.action.ReleaseAction?
  {
    AcceptsIsInForce(comments);
    var all := Members(comments);
    forall c ensures c in comments <==> c in all {}
    if g :| g in comments && g.id == GRANT_ID && Granted(g) && !g.body.action.ReleaseAction? {
      forall c | c in all ensures Passes(all, c) { if c.owner { SameIdSame(comments, c, g); } }
      assert GrantInForce(g);
    } else {
      forall g | g in all && g.id == GRANT_ID && GrantInForce(g) ensures !Passes(all, g) {
        assert Granted(g) && IsRelease(g);
        forall t | t in all ensures !ExactRelease(g, Some(t)) {}
      }
    }
  }

  /** Every accepted list holds the owner's unedited grant. */
  lemma AcceptedIsGranted(comments: seq<Comment>)
    requires Accepts(comments)
    ensures exists g :: g in comments && g.id == Number(5522755269) && Granted(g)
  {
    var g := ById(comments, GRANT_ID).value;
    assert Granted(g);
  }

  /** The granted text, by the owner, as first written, on the issue. */
  predicate Granted(g: Comment) {
    && g == Comment(g.id, g.complete, true, g.url, g.createdAt, g.createdAt, g.body)
    && (g.url == Exact || g.url.Containing?)
    && g.body.Text? && g.body.digest == 0xab068ff3c70bc8a09254357026c89ddda64af2a26f4e951513d8bbfde3092459
  }

  /**
   * A release lifts a restriction exactly when the restriction is the owner's numbered comment on the issue,
   * without a token, and the release is a later numbered comment on the issue, never edited, that cites the
   * grant and gives the number and the digest of the restriction and nothing else.
   */
  lemma ReleaseMeans(c: Comment, t: Comment)
    requires IsRelease(c)
    ensures var digest := c.body.action.release.bodyDigest;
            ExactRelease(c, Some(t)) <==>
            && c.id.Number? && t.id.Number? && t.id.number < c.id.number && c.createdAt.Some?
            && c == Comment(
                      c.id, c.complete, true, Exact, c.createdAt, c.createdAt,
                      Text(c.body.digest, ReleaseAction(Release(true, Some(5522755269), Some(t.id.number), digest)),
                           c.body.tokens))
            && t == Comment(t.id, t.complete, true, Exact, t.createdAt, t.updatedAt,
                            Text(digest, RestrictAction, false))
  {
  }
}
