/**
  The FIFO device when every read and every write has the same size `r`, as the
  sender and the receiver of login records use it. Interruptions are allowed.
 */
module FifoRecords {
  import opened Fifo

  predicate Sized(c: Call, r: nat) {
    match c
    case Read(_, n) => n == r
    case Write(_, b) => |b| == r
    case _ => true
  }

  ghost predicate RecordNext(s: State, s': State, r: nat) {
    exists a :: Enabled(s, a) && (a.Begin? ==> Sized(a.c, r)) && s' == Apply(s, a)
  }

  ghost predicate RecordRun(tr: seq<State>, r: nat) {
    && |tr| > 0
    && tr[0] == Init()
    && forall i :: 0 <= i < |tr| - 1 ==> RecordNext(tr[i], tr[i + 1], r)
  }

  /** `n` bytes are some number of whole records. */
  predicate Multiple(n: nat, r: nat)
    requires r > 0
    decreases n
  {
    n == 0 || (n >= r && Multiple(n - r, r))
  }

  lemma {:induction false} MultipleSum(m: nat, n: nat, r: nat)
    requires r > 0 && Multiple(m, r) && Multiple(n, r)
    ensures Multiple(m + n, r)
  {
    if m != 0 {
      MultipleSum(m - r, n, r);
    }
  }

  /** Different numbers of whole records differ by a record at least. */
  lemma {:induction false} MultipleGap(m: nat, n: nat, r: nat)
    requires r > 0 && Multiple(m, r) && Multiple(n, r) && m < n
    ensures m + r <= n
  {
    if m != 0 {
      MultipleGap(m - r, n - r, r);
    }
  }

  ghost predicate Whole(d: Data, r: nat)
    requires r > 0
  {
    && Multiple(|d.buf|, r)
    && (forall k :: 0 <= k < |d.writes| ==> |d.writes[k]| == r)
    && (forall k :: 0 <= k < |d.drains| ==> Multiple(|d.drains[k].bytes|, r))
    && (forall k :: 0 <= k < |d.drains| && d.drains[k].Taken? ==> |d.drains[k].bytes| == r)
  }

  ghost predicate RecordInv(s: State, r: nat)
    requires r > 0
  {
    Inv(s) && Whole(s.d, r) && forall t :: At(s, t).Idle? || Sized(At(s, t).c, r)
  }

  lemma TestKeepsWhole(d: Data, c: Call, r: nat)
    requires r > 0 && Whole(d, r) && Sized(c, r) && InOrder(d) && d.numCons >= 0
    ensures Whole(TestPlan(d, c).d, r)
  {
    assert Multiple(0, r) && Multiple(r, r);
    MultipleSum(|d.buf|, r, r);
  }

  lemma KeepsWhole(s: State, a: Action, r: nat)
    requires r > 0 && RecordInv(s, r) && Enabled(s, a)
    ensures Whole(PlanOf(s, a).d, r)
  {
    DataSources(s, a);
    var pc := At(s, a.t);
    if a.Go? && (pc.Critical? || pc.Test?) {
      assert ThreadOk(s.d, a.t, pc);
      TestKeepsWhole(s.d, pc.c, r);
    }
  }

  lemma RecordInvStep(s: State, a: Action, r: nat)
    requires r > 0 && RecordInv(s, r) && Enabled(s, a) && (a.Begin? ==> Sized(a.c, r))
    ensures RecordInv(Apply(s, a), r)
  {
    InvStep(s, a);
    KeepsWhole(s, a, r);
    SameCall(s, a);
    assert forall t :: At(Apply(s, a), t) == if t == a.t then PlanOf(s, a).pc else At(s, t);
  }

  /** A step ends a call or stays in it. */
  lemma SameCall(s: State, a: Action)
    requires Enabled(s, a)
    ensures var pc := PlanOf(s, a).pc; pc.Idle? || pc.c == if a.Begin? then a.c else At(s, a.t).c
  {
  }

  lemma {:induction false} RecordInvRun(tr: seq<State>, i: nat, r: nat)
    requires r > 0 && RecordRun(tr, r) && i < |tr|
    ensures RecordInv(tr[i], r)
  {
    if i > 0 {
      RecordInvRun(tr, i - 1, r);
      assert RecordNext(tr[i - 1], tr[i - 1 + 1], r);
      var a :| Enabled(tr[i - 1], a) && (a.Begin? ==> Sized(a.c, r)) && tr[i] == Apply(tr[i - 1], a);
      RecordInvStep(tr[i - 1], a, r);
    }
  }

  // ----- the theorems

  lemma {:induction false} WrittenWhole(ws: seq<seq<Byte>>, r: nat)
    requires r > 0 && forall k :: 0 <= k < |ws| ==> |ws[k]| == r
    ensures Multiple(|Written(ws)|, r)
  {
    if ws != [] {
      WrittenWhole(ws[..|ws| - 1], r);
    }
  }

  lemma {:induction false} DrainedWhole(ds: seq<Drain>, r: nat)
    requires r > 0 && forall k :: 0 <= k < |ds| ==> Multiple(|ds[k].bytes|, r)
    ensures Multiple(|Drained(ds)|, r)
  {
    if ds != [] {
      DrainedWhole(ds[..|ds| - 1], r);
      MultipleSum(|Drained(ds[..|ds| - 1])|, |ds[|ds| - 1].bytes|, r);
    }
  }

  lemma {:induction false} DrainedSplit(ds: seq<Drain>, i: nat)
    requires i < |ds|
    ensures Drained(ds[..i]) + ds[i].bytes <= Drained(ds)
  {
    var rest := ds[..|ds| - 1];
    if i < |rest| {
      DrainedSplit(rest, i);
      assert rest[..i] == ds[..i];
    } else {
      assert rest == ds[..i];
    }
  }

  /** A record-long piece of the written bytes that starts after whole records is one of the writes. */
  lemma {:induction false} PieceIsRecord(ws: seq<seq<Byte>>, before: seq<Byte>, piece: seq<Byte>, r: nat) returns (k: nat)
    requires r > 0 && (forall j :: 0 <= j < |ws| ==> |ws[j]| == r)
    requires Multiple(|before|, r) && |piece| == r && before + piece <= Written(ws)
    ensures k < |ws| && before == Written(ws[..k]) && piece == ws[k]
  {
    var rest := ws[..|ws| - 1];
    var all := Written(rest);
    WrittenWhole(rest, r);
    assert Written(ws) == all + ws[|ws| - 1];
    assert before == Written(ws)[..|before|] && piece == Written(ws)[|before|..|before| + r];
    if |before| < |all| {
      MultipleGap(|before|, |all|, r);
      assert before + piece <= all;
      k := PieceIsRecord(rest, before, piece, r);
      assert rest[..k] == ws[..k];
    } else {
      k := |ws| - 1;
    }
  }

  /** Every read that is not at end of file returns one whole record: the next one in the order of the writes. */
  lemma ReadsWholeRecords(tr: seq<State>, i: nat, r: nat, n: nat)
    requires r > 0 && RecordRun(tr, r) && i < |tr|
    requires n < |tr[i].d.drains| && tr[i].d.drains[n].Taken?
    ensures var d := tr[i].d;
      exists k :: 0 <= k < |d.writes| && Drained(d.drains[..n]) == Written(d.writes[..k]) && d.drains[n].bytes == d.writes[k]
  {
    RecordInvRun(tr, i, r);
    var d := tr[i].d;
    DrainedWhole(d.drains[..n], r);
    DrainedSplit(d.drains, n);
    var k := PieceIsRecord(d.writes, Drained(d.drains[..n]), d.drains[n].bytes, r);
  }

  /** The ring holds whole records, and never blocks a reader and a writer at the same time. */
  lemma NeverBothBlocked(tr: seq<State>, i: nat, r: nat, h: nat, g: nat, b: seq<Byte>)
    requires 0 < r <= BUF_LEN && RecordRun(tr, r) && i < |tr| && |b| == r
    ensures Multiple(|tr[i].d.buf|, r)
    ensures !(Blocked(tr[i].d, Read(h, r)) && Blocked(tr[i].d, Write(g, b)))
  {
    RecordInvRun(tr, i, r);
    assert Whole(tr[i].d, r);
  }
}
