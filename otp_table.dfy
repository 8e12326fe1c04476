/**
 * The queries the auth routes run against the `emailOTP` table, and what
 * they do to it: issuing a code (delete the pair, then insert), redeeming
 * one (find, mark verified, clean up), and the lookup of a verified code
 * that registration depends on.
 */
module OtpTable {
  import opened Wrappers
  import opened Seqs
  import opened OtpPurpose
  import opened Store

  /** A code expires ten minutes after it is issued. */
  const OtpLifetimeMs: int := 10 * 60 * 1000

  /** Registration accepts a verified code whose expiry is at most thirty minutes in the past. */
  const RegistrationGraceMs: int := 30 * 60 * 1000

  function PairIs(email: string, purpose: Purpose): OtpRow -> bool
  {
    (r: OtpRow) => r.email == email && r.purpose == purpose
  }

  function PairIsNot(email: string, purpose: Purpose): OtpRow -> bool
  {
    (r: OtpRow) => !(r.email == email && r.purpose == purpose)
  }

  /** The rows stored for one (email, purpose) pair, in table order. */
  function RowsFor(otps: seq<OtpRow>, email: string, purpose: Purpose): (r: seq<OtpRow>)
    ensures forall x :: x in r <==> x in otps && x.email == email && x.purpose == purpose
  {
    Filter(otps, PairIs(email, purpose))
  }

  /** `deleteMany({ where: { email, purpose } })`. */
  function WithoutPair(otps: seq<OtpRow>, email: string, purpose: Purpose): (r: seq<OtpRow>)
    ensures forall x :: x in r <==> x in otps && !(x.email == email && x.purpose == purpose)
  {
    Filter(otps, PairIsNot(email, purpose))
  }

  /** Deleting a pair empties that pair and leaves every other pair as it was. */
  lemma WithoutPairSelects(otps: seq<OtpRow>, email: string, purpose: Purpose, e: string, p: Purpose)
    ensures RowsFor(WithoutPair(otps, email, purpose), e, p) ==
      if e == email && p == purpose then [] else RowsFor(otps, e, p)
  {
    if e == email && p == purpose {
      FilterNone(WithoutPair(otps, email, purpose), PairIs(e, p));
    } else {
      FilterNarrow(otps, PairIsNot(email, purpose), PairIs(e, p));
    }
  }

  /** The row `emailOTP.create` inserts: unverified, with the given code and expiry. */
  function NewCode(id: nat, email: string, otp: string, purpose: Purpose, expiresAt: int, userId: Option<nat>): OtpRow
  {
    OtpRow(id, email, otp, purpose, expiresAt, false, userId)
  }

  /** Issuing a code: delete every row of the pair, then insert the new one. */
  function Issue(otps: seq<OtpRow>, id: nat, email: string, otp: string, purpose: Purpose, expiresAt: int, userId: Option<nat>)
    : (r: seq<OtpRow>)
    ensures 1 <= |r| <= |otps| + 1 && r[|r| - 1] == NewCode(id, email, otp, purpose, expiresAt, userId)
  {
    WithoutPair(otps, email, purpose) + [NewCode(id, email, otp, purpose, expiresAt, userId)]
  }

  /** Before the new code, the issued table holds exactly the old rows of other pairs. */
  lemma IssueKeepsOtherPairs(otps: seq<OtpRow>, id: nat, email: string, otp: string, purpose: Purpose, expiresAt: int,
                             userId: Option<nat>, x: OtpRow)
    ensures var r := Issue(otps, id, email, otp, purpose, expiresAt, userId);
      x in r[..|r| - 1] <==> x in otps && !(x.email == email && x.purpose == purpose)
  {
    var r := Issue(otps, id, email, otp, purpose, expiresAt, userId);
    assert r[..|r| - 1] == WithoutPair(otps, email, purpose);
  }

  /** After issuing, the pair holds exactly the new code and every other pair is unchanged. */
  lemma {:induction false} IssueSelects(otps: seq<OtpRow>, id: nat, email: string, otp: string, purpose: Purpose,
                                        expiresAt: int, userId: Option<nat>, e: string, p: Purpose)
    ensures RowsFor(Issue(otps, id, email, otp, purpose, expiresAt, userId), e, p) ==
      if e == email && p == purpose then [NewCode(id, email, otp, purpose, expiresAt, userId)] else RowsFor(otps, e, p)
  {
    var rest := WithoutPair(otps, email, purpose);
    var row := NewCode(id, email, otp, purpose, expiresAt, userId);
    FilterAppend(rest, [row], PairIs(e, p));
    WithoutPairSelects(otps, email, purpose, e, p);
    assert Filter([row], PairIs(e, p)) == if e == email && p == purpose then [row] else [];
  }

  /** A freshly issued code is redeemable until its expiry, and no later. */
  lemma IssuedRedeemable(otps: seq<OtpRow>, id: nat, email: string, otp: string, purpose: Purpose, expiresAt: int, now: int)
    ensures FindRedeemable(Issue(otps, id, email, otp, purpose, expiresAt, None), email, otp, purpose, now).Some?
            <==> now < expiresAt
  {
    var s := Issue(otps, id, email, otp, purpose, expiresAt, None);
    IssueSelects(otps, id, email, otp, purpose, expiresAt, None, email, purpose);
    assert s[|s| - 1] in s;
    assert forall x :: x in s && x.email == email && x.purpose == purpose ==> x in RowsFor(s, email, purpose);
  }

  /** Every two rows belong to different (email, purpose) pairs. */
  predicate DifferentPairs(a: OtpRow, b: OtpRow)
  {
    a.email != b.email || a.purpose != b.purpose
  }

  /** At most one code per (email, purpose): every route that issues a code deletes the pair first. */
  ghost predicate OnePerPair(otps: seq<OtpRow>)
  {
    Pairwise(otps, DifferentPairs)
  }

  /** Issuing a code under a fresh id keeps ids distinct, and keeps each pair to one row. */
  lemma IssueKeepsUnique(otps: seq<OtpRow>, id: nat, email: string, otp: string, purpose: Purpose, expiresAt: int, userId: Option<nat>)
    requires OtpIdsUnique(otps)
    requires forall x :: x in otps ==> x.id != id
    ensures OtpIdsUnique(Issue(otps, id, email, otp, purpose, expiresAt, userId))
    ensures OnePerPair(otps) ==> OnePerPair(Issue(otps, id, email, otp, purpose, expiresAt, userId))
  {
    var rest := WithoutPair(otps, email, purpose);
    var row := NewCode(id, email, otp, purpose, expiresAt, userId);
    PairwiseFilter(otps, DistinctOtpIds, PairIsNot(email, purpose));
    PairwiseSnoc(rest, row, DistinctOtpIds);
    if OnePerPair(otps) {
      PairwiseFilter(otps, DifferentPairs, PairIsNot(email, purpose));
      PairwiseSnoc(rest, row, DifferentPairs);
    }
  }

  /** The `findFirst` filter of verify-otp and reset-password-otp: the code is unused and has not expired. */
  function Redeemable(email: string, otp: string, purpose: Purpose, now: int): OtpRow -> bool
  {
    (r: OtpRow) => r.email == email && r.otp == otp && r.purpose == purpose && !r.verified && r.expiresAt > now
  }

  /** The first row a code can be redeemed against, if any. */
  function FindRedeemable(otps: seq<OtpRow>, email: string, otp: string, purpose: Purpose, now: int): (r: Option<nat>)
    ensures r.Some? ==> r.value < |otps|
    ensures r.Some? ==> var x := otps[r.value];
      x.email == email && x.otp == otp && x.purpose == purpose && !x.verified && x.expiresAt > now
    ensures r.None? <==> forall x :: x in otps ==>
      !(x.email == email && x.otp == otp && x.purpose == purpose && !x.verified && x.expiresAt > now)
  {
    FirstIndex(otps, Redeemable(email, otp, purpose, now))
  }

  function HasId(id: nat): OtpRow -> bool
  {
    (r: OtpRow) => r.id == id
  }

  function SetVerified(r: OtpRow): OtpRow
  {
    r.(verified := true)
  }

  /** `emailOTP.update({ where: { id }, data: { verified: true } })`. */
  function MarkVerified(otps: seq<OtpRow>, id: nat): (r: seq<OtpRow>)
    ensures |r| == |otps|
    ensures forall k :: 0 <= k < |otps| ==> r[k] == if otps[k].id == id then otps[k].(verified := true) else otps[k]
  {
    UpdateWhere(otps, HasId(id), SetVerified)
  }

  /**
   * The rows the clean-up after a verification keeps: those of other pairs,
   * and those of the pair that are neither verified nor expired. `keep`
   * names a row exempt from deletion; verify-otp as written exempts none.
   */
  function KeptAfterVerify(email: string, purpose: Purpose, now: int, keep: Option<nat>): (kept: OtpRow -> bool)
    ensures forall r: OtpRow :: r.email != email || r.purpose != purpose ==> kept(r)
    ensures forall r: OtpRow :: keep == Some(r.id) ==> kept(r)
    ensures forall r: OtpRow :: !r.verified && r.expiresAt >= now ==> kept(r)
    ensures forall r: OtpRow ::
      r.email == email && r.purpose == purpose && keep != Some(r.id) && (r.verified || r.expiresAt < now) ==> !kept(r)
  {
    (r: OtpRow) => !(r.email == email && r.purpose == purpose && (r.verified || r.expiresAt < now) && keep != Some(r.id))
  }

  /** Marking row `id` verified, then the `deleteMany` of spent codes for the pair. */
  function AfterVerify(otps: seq<OtpRow>, id: nat, email: string, purpose: Purpose, now: int, keep: Option<nat>)
    : (r: seq<OtpRow>)
    ensures forall x :: x in r && x.email == email && x.purpose == purpose && keep != Some(x.id) ==>
      !x.verified && x.expiresAt >= now
  {
    Filter(MarkVerified(otps, id), KeptAfterVerify(email, purpose, now, keep))
  }

  /** Redeeming row `i` leaves the rows of every other pair as they were. */
  lemma AfterVerifyKeepsOtherPairs(otps: seq<OtpRow>, i: nat, email: string, purpose: Purpose, now: int,
                                   keep: Option<nat>, e: string, p: Purpose)
    requires OtpIdsUnique(otps)
    requires i < |otps| && otps[i].email == email && otps[i].purpose == purpose
    requires e != email || p != purpose
    ensures RowsFor(AfterVerify(otps, otps[i].id, email, purpose, now, keep), e, p) == RowsFor(otps, e, p)
  {
    var id := otps[i].id;
    FilterNarrow(MarkVerified(otps, id), KeptAfterVerify(email, purpose, now, keep), PairIs(e, p));
    forall x | x in otps && HasId(id)(x) ensures !PairIs(e, p)(x) && !PairIs(e, p)(SetVerified(x)) {
      var k :| 0 <= k < |otps| && otps[k] == x;
    }
    FilterUpdateOutside(otps, HasId(id), SetVerified, PairIs(e, p));
  }

  /** verify-otp as written: once row `i` is redeemed, no row at all is left for its pair. */
  lemma AfterVerifyEmptiesPair(otps: seq<OtpRow>, i: nat, email: string, purpose: Purpose, now: int)
    requires OnePerPair(otps)
    requires i < |otps| && otps[i].email == email && otps[i].purpose == purpose
    ensures RowsFor(AfterVerify(otps, otps[i].id, email, purpose, now, None), email, purpose) == []
  {
    var m := MarkVerified(otps, otps[i].id);
    forall x | x in m && x.email == email && x.purpose == purpose ensures !KeptAfterVerify(email, purpose, now, None)(x) {
      var k :| 0 <= k < |m| && m[k] == x;
    }
    FilterNone(AfterVerify(otps, otps[i].id, email, purpose, now, None), PairIs(email, purpose));
  }

  /** With the redeemed row exempt, the pair holds exactly that row, now verified. */
  lemma AfterVerifyKeepingSelects(otps: seq<OtpRow>, i: nat, email: string, purpose: Purpose, now: int)
    requires OnePerPair(otps)
    requires i < |otps| && otps[i].email == email && otps[i].purpose == purpose
    ensures RowsFor(AfterVerify(otps, otps[i].id, email, purpose, now, Some(otps[i].id)), email, purpose)
      == [otps[i].(verified := true)]
  {
    var id := otps[i].id;
    var m := MarkVerified(otps, id);
    var keep := KeptAfterVerify(email, purpose, now, Some(id));
    assert m[i] == otps[i].(verified := true);
    // Within the pair only row i remains after marking.
    forall k | 0 <= k < |m| && k != i ensures !PairIs(email, purpose)(m[k]) {
      if k < i {
        assert DifferentPairs(otps[k], otps[i]);
      } else {
        assert DifferentPairs(otps[i], otps[k]);
      }
    }
    OnlyIndexSelected(m, i, PairIs(email, purpose));
    FilterCommute(m, keep, PairIs(email, purpose));
    assert Filter([m[i]], keep) == [m[i]];
  }

  /** A filter that selects exactly position `i` of a sequence returns that element alone. */
  lemma {:induction false} OnlyIndexSelected(s: seq<OtpRow>, i: nat, p: OtpRow -> bool)
    requires i < |s| && p(s[i])
    requires forall k :: 0 <= k < |s| && k != i ==> !p(s[k])
    ensures Filter(s, p) == [s[i]]
  {
    if i == 0 {
      forall x | x in s[1..] ensures !p(x) {
        var k :| 0 <= k < |s[1..]| && s[1..][k] == x;
        assert s[k + 1] == x;
      }
      FilterNone(s[1..], p);
    } else {
      forall k | 0 <= k < |s[1..]| && k != i - 1 ensures !p(s[1..][k]) {
        assert s[1..][k] == s[k + 1];
      }
      OnlyIndexSelected(s[1..], i - 1, p);
    }
  }

  /** No row of the table is marked verified. */
  ghost predicate NoVerifiedRows(otps: seq<OtpRow>)
  {
    forall x :: x in otps ==> !x.verified
  }

  /** verify-otp as written never leaves a verified row behind. */
  lemma AfterVerifyKeepsNoVerified(otps: seq<OtpRow>, i: nat, email: string, purpose: Purpose, now: int)
    requires NoVerifiedRows(otps)
    requires OtpIdsUnique(otps)
    requires i < |otps| && otps[i].email == email && otps[i].purpose == purpose
    ensures NoVerifiedRows(AfterVerify(otps, otps[i].id, email, purpose, now, None))
  {
    var m := MarkVerified(otps, otps[i].id);
    forall x | x in AfterVerify(otps, otps[i].id, email, purpose, now, None) ensures !x.verified {
      var k :| 0 <= k < |m| && m[k] == x;
    }
  }

  /** Issuing a code and deleting a pair add no verified row. */
  lemma IssueKeepsNoVerified(otps: seq<OtpRow>, id: nat, email: string, otp: string, purpose: Purpose, expiresAt: int, userId: Option<nat>)
    requires NoVerifiedRows(otps)
    ensures NoVerifiedRows(WithoutPair(otps, email, purpose))
    ensures NoVerifiedRows(Issue(otps, id, email, otp, purpose, expiresAt, userId))
  {
  }

  /** The `findFirst` filter of register: a verified email-verification code whose expiry is after `since`. */
  function VerifiedSince(email: string, since: int): OtpRow -> bool
  {
    (r: OtpRow) => r.email == email && r.purpose == EmailVerification && r.verified && r.expiresAt > since
  }

  /** The verified code register looks for at time `now`. */
  function FindVerified(otps: seq<OtpRow>, email: string, now: int): (r: Option<nat>)
    ensures r.Some? ==> r.value < |otps|
    ensures r.Some? ==> var x := otps[r.value];
      x.email == email && x.purpose == EmailVerification && x.verified && x.expiresAt > now - RegistrationGraceMs
    ensures r.None? <==> forall x :: x in otps ==>
      !(x.email == email && x.purpose == EmailVerification && x.verified && x.expiresAt > now - RegistrationGraceMs)
  {
    FirstIndex(otps, VerifiedSince(email, now - RegistrationGraceMs))
  }

  /** In a table without verified rows register's lookup finds nothing, at any time. */
  lemma NoVerifiedMeansNoRegistration(otps: seq<OtpRow>, email: string, now: int)
    requires NoVerifiedRows(otps)
    ensures FindVerified(otps, email, now).None?
  {
  }

  /**
   * After verify-otp as written, register's lookup fails for that email at
   * every later time: the clean-up deletes every verified row of the pair.
   */
  lemma RegisterAfterVerifyFails(otps: seq<OtpRow>, id: nat, email: string, now: int, later: int)
    ensures FindVerified(AfterVerify(otps, id, email, EmailVerification, now, None), email, later).None?
  {
  }

  /** After verify-otp as written, the same pair cannot be redeemed again with any code. */
  lemma RepeatVerifyFails(otps: seq<OtpRow>, i: nat, email: string, purpose: Purpose, now: int, otp: string, later: int)
    requires OnePerPair(otps)
    requires i < |otps| && otps[i].email == email && otps[i].purpose == purpose
    ensures FindRedeemable(AfterVerify(otps, otps[i].id, email, purpose, now, None), email, otp, purpose, later).None?
  {
    var after := AfterVerify(otps, otps[i].id, email, purpose, now, None);
    AfterVerifyEmptiesPair(otps, i, email, purpose, now);
    assert forall x :: x in after && x.email == email && x.purpose == purpose ==> x in RowsFor(after, email, purpose);
  }

  /**
   * With the redeemed row kept, register's lookup succeeds for that email
   * at any time up to thirty minutes after the verification.
   */
  lemma RegisterAfterCorrectedVerify(otps: seq<OtpRow>, i: nat, email: string, otp: string, now: int, later: int)
    requires FindRedeemable(otps, email, otp, EmailVerification, now) == Some(i)
    requires later <= now + RegistrationGraceMs
    ensures FindVerified(AfterVerify(otps, otps[i].id, email, EmailVerification, now, Some(otps[i].id)), email, later).Some?
  {
    var m := MarkVerified(otps, otps[i].id);
    assert m[i] in m;
    assert KeptAfterVerify(email, EmailVerification, now, Some(otps[i].id))(m[i]);
    assert m[i] in AfterVerify(otps, otps[i].id, email, EmailVerification, now, Some(otps[i].id));
  }

  /** With the redeemed row kept, the same pair still cannot be redeemed a second time. */
  lemma RepeatCorrectedVerifyFails(otps: seq<OtpRow>, i: nat, email: string, purpose: Purpose, now: int, otp: string, later: int)
    requires OnePerPair(otps)
    requires i < |otps| && otps[i].email == email && otps[i].purpose == purpose
    ensures FindRedeemable(AfterVerify(otps, otps[i].id, email, purpose, now, Some(otps[i].id)), email, otp, purpose, later).None?
  {
    var after := AfterVerify(otps, otps[i].id, email, purpose, now, Some(otps[i].id));
    AfterVerifyKeepingSelects(otps, i, email, purpose, now);
    assert forall x :: x in after && x.email == email && x.purpose == purpose ==> x in RowsFor(after, email, purpose);
  }

  /** Marking a row verified changes no id, email or purpose. */
  lemma MarkVerifiedKeepsUnique(otps: seq<OtpRow>, id: nat)
    ensures OtpIdsUnique(otps) ==> OtpIdsUnique(MarkVerified(otps, id))
    ensures OnePerPair(otps) ==> OnePerPair(MarkVerified(otps, id))
  {
    var m := MarkVerified(otps, id);
    if OtpIdsUnique(otps) {
      forall a, b | 0 <= a < b < |m| ensures DistinctOtpIds(m[a], m[b]) {
        assert DistinctOtpIds(otps[a], otps[b]);
      }
    }
    if OnePerPair(otps) {
      forall a, b | 0 <= a < b < |m| ensures DifferentPairs(m[a], m[b]) {
        assert DifferentPairs(otps[a], otps[b]);
      }
    }
  }

  /** The clean-up after a verification keeps ids distinct and each pair to one row. */
  lemma AfterVerifyKeepsUnique(otps: seq<OtpRow>, id: nat, email: string, purpose: Purpose, now: int, keep: Option<nat>)
    requires OtpIdsUnique(otps)
    ensures OtpIdsUnique(AfterVerify(otps, id, email, purpose, now, keep))
    ensures OnePerPair(otps) ==> OnePerPair(AfterVerify(otps, id, email, purpose, now, keep))
  {
    var m := MarkVerified(otps, id);
    MarkVerifiedKeepsUnique(otps, id);
    PairwiseFilter(m, DistinctOtpIds, KeptAfterVerify(email, purpose, now, keep));
    if OnePerPair(m) {
      PairwiseFilter(m, DifferentPairs, KeptAfterVerify(email, purpose, now, keep));
    }
  }

  /**
   * The `emailOTP` model: its rows in insertion order and the next id
   * `create` hands out. Each method is one Prisma call.
   */
  class EmailOtps {
    var rows: seq<OtpRow>
    var nextId: nat

    ghost predicate Valid()
      reads this
    {
      OtpIdsUnique(rows) && forall o :: o in rows ==> o.id < nextId
    }

    constructor ()
      ensures Valid() && rows == [] && OnePerPair(rows)
    {
      rows, nextId := [], 0;
    }

    /** `emailOTP.deleteMany({ where: { email, purpose } })`. */
    method DeletePair(email: string, purpose: Purpose)
      requires Valid()
      modifies this
      ensures Valid()
      ensures rows == WithoutPair(old(rows), email, purpose) && nextId == old(nextId)
      ensures OnePerPair(old(rows)) ==> OnePerPair(rows)
    {
      PairwiseFilter(rows, DistinctOtpIds, PairIsNot(email, purpose));
      if OnePerPair(rows) {
        PairwiseFilter(rows, DifferentPairs, PairIsNot(email, purpose));
      }
      rows := WithoutPair(rows, email, purpose);
    }

    /** `emailOTP.create`: appends an unverified row under a fresh id. */
    method Create(email: string, otp: string, purpose: Purpose, expiresAt: int, userId: Option<nat>) returns (id: nat)
      requires Valid()
      modifies this
      ensures Valid()
      ensures id == old(nextId) && nextId == old(nextId) + 1
      ensures rows == old(rows) + [NewCode(id, email, otp, purpose, expiresAt, userId)]
      ensures forall o :: o in old(rows) ==> o.id != id
    {
      id := nextId;
      var row := NewCode(id, email, otp, purpose, expiresAt, userId);
      PairwiseSnoc(rows, row, DistinctOtpIds);
      rows := rows + [row];
      nextId := nextId + 1;
    }

    /**
     * What send-otp and forgot-password do to the table: the `deleteMany`
     * of the pair, then the `create` of the new code.
     */
    method Replace(email: string, otp: string, purpose: Purpose, expiresAt: int, userId: Option<nat>) returns (id: nat)
      requires Valid()
      modifies this
      ensures Valid()
      ensures id == old(nextId) && nextId == old(nextId) + 1
      ensures rows == Issue(old(rows), id, email, otp, purpose, expiresAt, userId)
      ensures OnePerPair(old(rows)) ==> OnePerPair(rows)
    {
      IssueKeepsUnique(rows, nextId, email, otp, purpose, expiresAt, userId);
      DeletePair(email, purpose);
      id := Create(email, otp, purpose, expiresAt, userId);
    }

    /** `emailOTP.update({ where: { id }, data: { verified: true } })`; `found` is false when no row has the id. */
    method UpdateVerified(id: nat) returns (found: bool)
      requires Valid()
      modifies this
      ensures Valid()
      ensures rows == MarkVerified(old(rows), id) && nextId == old(nextId)
      ensures found <==> exists o :: o in old(rows) && o.id == id
      ensures OnePerPair(old(rows)) ==> OnePerPair(rows)
    {
      found := FirstIndex(rows, HasId(id)).Some?;
      MarkVerifiedKeepsUnique(rows, id);
      rows := MarkVerified(rows, id);
    }

    /**
     * The `deleteMany` that follows a verification: the verified or expired
     * rows of the pair, except the row `keep` names.
     */
    method DeleteSpent(email: string, purpose: Purpose, now: int, keep: Option<nat>)
      requires Valid()
      modifies this
      ensures Valid()
      ensures rows == Filter(old(rows), KeptAfterVerify(email, purpose, now, keep)) && nextId == old(nextId)
      ensures OnePerPair(old(rows)) ==> OnePerPair(rows)
    {
      PairwiseFilter(rows, DistinctOtpIds, KeptAfterVerify(email, purpose, now, keep));
      if OnePerPair(rows) {
        PairwiseFilter(rows, DifferentPairs, KeptAfterVerify(email, purpose, now, keep));
      }
      rows := Filter(rows, KeptAfterVerify(email, purpose, now, keep));
    }
  }
}
