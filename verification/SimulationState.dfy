/**
 * The values a simulation keeps: paths with their feedback queues, sent symbols, and sets of sequence numbers. Each
 * has the small facts about its counts that the books are made of: how one more symbol, one more acknowledgement or
 * one more delivery changes them, and what stays as it was.
 */
module SimulationState {
  import opened RealSums

  datatype Ack = Ack(tick: nat, ok: bool, source: bool)

  datatype Path = Path(
    capacity: nat, rttTicks: nat, channel: seq<bool>, wireIdx: nat, feedback: seq<Ack>,
    sent: nat, arrived: nat, src: nat, fec: nat, arq: nat, lost: nat, stripeCredit: real)

  datatype Symbol = Symbol(tick: nat, at: nat, lost: bool, recovered: bool, lastRetx: int, path: nat)

  // ---- sums

  function Sum(s: seq<nat>): nat {
    if s == [] then 0 else Sum(s[..|s| - 1]) + s[|s| - 1]
  }

  lemma {:induction false} SumUpdate(s: seq<nat>, i: nat, v: nat)
    requires i < |s|
    ensures Sum(s[i := v]) + s[i] == Sum(s) + v
  {
    var last := |s| - 1;
    if i == last {
      assert s[i := v][..last] == s[..last];
    } else {
      SumUpdate(s[..last], i, v);
      assert s[i := v][..last] == s[..last][i := v];
    }
  }

  lemma {:induction false} SumPositive(s: seq<nat>)
    requires Sum(s) > 0
    ensures exists i :: 0 <= i < |s| && s[i] > 0
  {
    var last := |s| - 1;
    if s[last] == 0 {
      SumPositive(s[..last]);
      var i :| 0 <= i < last && s[..last][i] > 0;
      assert s[i] > 0;
    }
  }

  // ---- sent symbols

  ghost function Upto(n: nat): (r: set<nat>)
    ensures forall q: nat :: q in r <==> q < n
  {
    if n == 0 then {} else Upto(n - 1) + {n - 1}
  }

  lemma UptoStep(n: nat)
    ensures Upto(0) == {} && Upto(n + 1) == Upto(n) + {n}
  {}

  lemma {:induction false} UptoSize(n: nat)
    ensures |Upto(n)| == n
  {
    hide Upto;
    if n > 0 {
      UptoSize(n - 1);
      UptoStep(n - 1);
    } else {
      UptoStep(0);
    }
  }

  predicate Open(s: Symbol) { s.lost && !s.recovered }

  /** The sequence numbers lost and not yet recovered or given up. */
  ghost function Holes(ss: seq<Symbol>): set<nat> {
    set i | 0 <= i < |ss| && Open(ss[i]) :: ss[i].at
  }

  ghost predicate Distinct(ss: seq<Symbol>) {
    forall i, j :: 0 <= i < j < |ss| ==> ss[i].at != ss[j].at
  }

  lemma CloseHole(ss: seq<Symbol>, i: nat)
    requires Distinct(ss) && i < |ss| && Open(ss[i])
    ensures Holes(ss[i := ss[i].(recovered := true)]) == Holes(ss) - {ss[i].at}
    ensures Distinct(ss[i := ss[i].(recovered := true)]) && ss[i].at in Holes(ss)
  {
    var after := ss[i := ss[i].(recovered := true)];
    forall q
      ensures q in Holes(after) <==> q in Holes(ss) - {ss[i].at}
    {
      if q in Holes(ss) && q != ss[i].at {
        var j :| 0 <= j < |ss| && Open(ss[j]) && ss[j].at == q;
        assert after[j] == ss[j];
      }
    }
  }

  lemma HolesSnoc(ss: seq<Symbol>, s: Symbol)
    ensures Holes(ss + [s]) == Holes(ss) + (if Open(s) then {s.at} else {})
  {
    var more := ss + [s];
    forall q
      ensures q in Holes(more) <==> q in Holes(ss) || (Open(s) && q == s.at)
    {
      if q in Holes(ss) {
        var j :| 0 <= j < |ss| && Open(ss[j]) && ss[j].at == q;
        assert more[j] == ss[j];
      }
      if Open(s) {
        assert more[|ss|] == s;
      }
    }
  }

  // ---- the ledger: delivered, given up, open

  /**
   * Every sequence number sent is in exactly one of three places: decoded, given up (decoded later
   * or not), or still open; the two counters count the first two.
   */
  ghost predicate Ledger(ss: seq<Symbol>, next: nat, decoded: set<nat>, givenUp: set<nat>, cumDecoded: nat,
        cumGivenUp: nat) {
    && Distinct(ss) && (forall s :: s in ss ==> s.at < next)
    && decoded <= Upto(next) && givenUp <= Upto(next)
    && Holes(ss) == Upto(next) - decoded - givenUp
    && cumDecoded == |decoded - givenUp| && cumGivenUp == |givenUp|
  }

  lemma Conservation(ss: seq<Symbol>, next: nat, decoded: set<nat>, givenUp: set<nat>, cumDecoded: nat, cumGivenUp: nat)
    requires Ledger(ss, next, decoded, givenUp, cumDecoded, cumGivenUp)
    ensures cumDecoded + cumGivenUp + |Holes(ss)| == next
  {
    UptoSize(next);
    assert Upto(next) == (decoded - givenUp) + givenUp + Holes(ss);
  }

  /** How many of the sequence numbers are outside a set. */
  function CountOutside(qs: seq<nat>, g: set<nat>): nat {
    if qs == [] then 0 else CountOutside(qs[..|qs| - 1], g) + (if qs[|qs| - 1] in g then 0 else 1)
  }

  ghost function Members(qs: seq<nat>): set<nat> { set q | q in qs }

  lemma OutsideSnoc(decoded: set<nat>, g: set<nat>, q: nat)
    requires q !in decoded
    ensures |(decoded + {q}) - g| == |decoded - g| + (if q in g then 0 else 1)
  {
    assert (decoded + {q}) - g == if q in g then decoded - g else (decoded - g) + {q};
  }

  lemma MembersSnoc(qs: seq<nat>, q: nat)
    ensures Members(qs + [q]) == Members(qs) + {q} && Members([]) == {}
    ensures q in Members(qs) <==> q in qs
  {
    forall p
      ensures p in Members(qs + [q]) <==> p in Members(qs) + {q}
    {}
  }

  lemma {:induction false} CountNew(qs: seq<nat>, decoded: set<nat>, g: set<nat>)
    requires forall i :: 0 <= i < |qs| ==> qs[i] !in decoded
    requires forall i, j :: 0 <= i < j < |qs| ==> qs[i] != qs[j]
    ensures |(decoded + Members(qs)) - g| == |decoded - g| + CountOutside(qs, g)
  {
    hide Members;
    MembersSnoc([], 0);
    if qs == [] {
      assert decoded + Members(qs) == decoded;
    } else {
      var init, q := qs[..|qs| - 1], qs[|qs| - 1];
      CountNew(init, decoded, g);
      assert qs == init + [q];
      MembersSnoc(init, q);
      OutsideSnoc(decoded + Members(init), g, q);
      assert (decoded + Members(init)) + {q} == decoded + Members(qs);
    }
  }

  /** What a feed returned: each sequence number once, none decoded before, all decoded now. */
  ghost predicate Fresh(rec: seq<nat>, before: set<nat>, after: set<nat>) {
    && after == before + Members(rec)
    && (forall i :: 0 <= i < |rec| ==> rec[i] !in before)
    && (forall i, j :: 0 <= i < j < |rec| ==> rec[i] != rec[j])
  }

  // ---- what one call does to the ledger

  /** Closes every open symbol whose sequence number is in the list, and changes nothing else. */
  ghost function Marked(ss: seq<Symbol>, qs: set<nat>): (r: seq<Symbol>)
    ensures |r| == |ss|
    ensures forall i :: 0 <= i < |ss| ==>
      r[i] == if Open(ss[i]) && ss[i].at in qs then ss[i].(recovered := true) else ss[i]
  {
    seq(|ss|, i requires 0 <= i < |ss| => if Open(ss[i]) && ss[i].at in qs then ss[i].(recovered := true) else ss[i])
  }

  lemma MarkedHoles(ss: seq<Symbol>, qs: set<nat>)
    ensures Holes(Marked(ss, qs)) == Holes(ss) - qs
    ensures Distinct(ss) ==> Distinct(Marked(ss, qs))
  {
    var after := Marked(ss, qs);
    forall q
      ensures q in Holes(after) <==> q in Holes(ss) && q !in qs
    {
      if q in Holes(ss) && q !in qs {
        var j :| 0 <= j < |ss| && Open(ss[j]) && ss[j].at == q;
        assert after[j] == ss[j];
      }
    }
  }

  /** Newly decoded sequence numbers move out of the open ones and into the decoded count. */
  lemma LedgerAfterDecoding(ss: seq<Symbol>, next: nat, decoded: set<nat>, g: set<nat>, d: nat, u: nat,
        news: seq<nat>, after: set<nat>, more: nat)
    requires Ledger(ss, next, decoded, g, d, u) && next <= more <= next + 1
    requires Fresh(news, decoded, after) && forall q :: q in after ==> q < more
    requires more == next + 1 ==> next in after
    ensures Ledger(Marked(ss, Members(news)), more, after, g, d + CountOutside(news, g), u)
  {
    hide Members, Holes, Upto, CountOutside, Marked, Distinct;
    var set0 := Members(news);
    MarkedHoles(ss, set0);
    CountNew(news, decoded, g);
    HolesAfterDecoding(Holes(ss), next, decoded, g, set0, more);
    BoundKept(ss, set0, next, more);
  }

  lemma HolesAfterDecoding(holes: set<nat>, next: nat, decoded: set<nat>, g: set<nat>, news: set<nat>, more: nat)
    requires next <= more <= next + 1 && holes == Upto(next) - decoded - g
    requires more == next + 1 ==> next in decoded + news
    requires decoded <= Upto(next)
    ensures holes - news == Upto(more) - (decoded + news) - g
  {}

  lemma BoundKept(ss: seq<Symbol>, qs: set<nat>, next: nat, more: nat)
    requires next <= more && forall s :: s in ss ==> s.at < next
    ensures forall s :: s in Marked(ss, qs) ==> s.at < more
  {
    var after := Marked(ss, qs);
    forall s | s in after
      ensures s.at < more
    {
      var i :| 0 <= i < |after| && after[i] == s;
      assert ss[i] in ss;
    }
  }

  lemma LedgerAfterLoss(ss: seq<Symbol>, next: nat, decoded: set<nat>, g: set<nat>, d: nat, u: nat, s: Symbol)
    requires Ledger(ss, next, decoded, g, d, u) && s.at == next && Open(s)
    ensures Ledger(ss + [s], next + 1, decoded, g, d, u) && |Holes(ss + [s])| == |Holes(ss)| + 1
  {
    HolesSnoc(ss, s);
    assert Holes(ss + [s]) == Upto(next + 1) - decoded - g;
    assert next !in Holes(ss);
  }

  lemma LedgerAfterArrival(ss: seq<Symbol>, next: nat, decoded: set<nat>, g: set<nat>, d: nat, u: nat, s: Symbol,
        news: seq<nat>, after: set<nat>)
    requires Ledger(ss, next, decoded, g, d, u) && s.at == next && !Open(s)
    requires Fresh(news, decoded, after) && next in after && forall q :: q in after ==> q < next + 1
    ensures Ledger(Marked(ss + [s], Members(news)), next + 1, after, g, d + CountOutside(news, g), u)
    ensures Holes(ss + [s]) == Holes(ss)
  {
    hide Members, Upto, CountOutside, Holes, Marked, Distinct, Fresh;
    LedgerAfterDecoding(ss, next, decoded, g, d, u, news, after, next + 1);
    var marked := Marked(ss, Members(news));
    MarkedSnoc(ss, s, Members(news));
    HolesSnoc(ss, s);
    HolesSnoc(marked, s);
    BoundKept(ss, Members(news), next, next);
    DistinctSnoc(marked, s);
    LedgerKept(marked, marked + [s], next + 1, after, g, d + CountOutside(news, g), u);
  }

  lemma MarkedSnoc(ss: seq<Symbol>, s: Symbol, qs: set<nat>)
    requires !Open(s)
    ensures Marked(ss + [s], qs) == Marked(ss, qs) + [s]
  {}

  lemma DistinctSnoc(ss: seq<Symbol>, s: Symbol)
    requires Distinct(ss) && forall x :: x in ss ==> x.at < s.at
    ensures Distinct(ss + [s])
  {
    forall i | 0 <= i < |ss|
      ensures ss[i].at != s.at
    {
      assert ss[i] in ss;
    }
  }

  lemma LedgerAfterGivingUp(ss: seq<Symbol>, next: nat, decoded: set<nat>, g: set<nat>, d: nat, u: nat, i: nat)
    requires Ledger(ss, next, decoded, g, d, u) && i < |ss| && Open(ss[i])
    ensures Ledger(ss[i := ss[i].(recovered := true)], next, decoded, g + {ss[i].at}, d, u + 1)
    ensures |Holes(ss[i := ss[i].(recovered := true)])| + 1 == |Holes(ss)|
  {
    CloseHole(ss, i);
    var q := ss[i].at;
    assert decoded - (g + {q}) == decoded - g;
    var after := ss[i := ss[i].(recovered := true)];
    assert Holes(after) == Upto(next) - decoded - (g + {q});
    forall s | s in after
      ensures s.at < next
    {
      assert ss[i] in ss;
      assert s in ss || s == after[i];
    }
  }

  /** Symbols may be dropped, or marked when they were not lost, as long as no open one changes. */
  lemma LedgerKept(ss: seq<Symbol>, after: seq<Symbol>, next: nat, decoded: set<nat>, g: set<nat>, d: nat, u: nat)
    requires Ledger(ss, next, decoded, g, d, u) && Distinct(after) && Holes(after) == Holes(ss)
    requires forall s :: s in after ==> s.at < next
    ensures Ledger(after, next, decoded, g, d, u)
  {}

  // ---- feedback queues

  /** How many arrived source symbols wait in a queue for their acknowledgement. */
  function SourceAcks(fb: seq<Ack>): nat {
    if fb == [] then 0 else SourceAcks(fb[1..]) + (if fb[0].ok && fb[0].source then 1 else 0)
  }

  /** The acknowledgements waiting in a queue are those of these sources, sent at these ticks, in order. */
  ghost predicate Carries(fb: seq<Ack>, ids: seq<nat>, sendTick: seq<nat>) {
    if fb == [] then ids == []
    else if fb[0].ok && fb[0].source then
      ids != [] && ids[0] < |sendTick| && sendTick[ids[0]] == fb[0].tick && Carries(fb[1..], ids[1..], sendTick)
    else Carries(fb[1..], ids, sendTick)
  }

  lemma {:induction false} CarriesCount(fb: seq<Ack>, ids: seq<nat>, sendTick: seq<nat>)
    requires Carries(fb, ids, sendTick)
    ensures |ids| == SourceAcks(fb)
    ensures forall i :: 0 <= i < |ids| ==> ids[i] < |sendTick|
  {
    if fb != [] {
      CarriesCount(fb[1..], if fb[0].ok && fb[0].source then ids[1..] else ids, sendTick);
    }
  }

  /** Every waiting acknowledgement was sent no earlier than the oldest entry of the queue. */
  lemma {:induction false} CarriesRecent(fb: seq<Ack>, ids: seq<nat>, sendTick: seq<nat>, since: nat)
    requires Carries(fb, ids, sendTick) && forall a :: a in fb ==> a.tick >= since
    ensures forall i :: 0 <= i < |ids| ==> ids[i] < |sendTick| && sendTick[ids[i]] >= since
  {
    if fb != [] {
      CarriesRecent(fb[1..], if fb[0].ok && fb[0].source then ids[1..] else ids, sendTick, since);
    }
  }

  lemma {:induction false} CarriesGrows(fb: seq<Ack>, ids: seq<nat>, sendTick: seq<nat>, tick: nat)
    requires Carries(fb, ids, sendTick)
    ensures Carries(fb, ids, sendTick + [tick])
  {
    if fb != [] {
      CarriesGrows(fb[1..], if fb[0].ok && fb[0].source then ids[1..] else ids, sendTick, tick);
    }
  }

  lemma {:induction false} CarriesSnoc(fb: seq<Ack>, ids: seq<nat>, sendTick: seq<nat>, a: Ack, q: nat)
    requires Carries(fb, ids, sendTick)
    requires a.ok && a.source ==> q < |sendTick| && sendTick[q] == a.tick
    ensures Carries(fb + [a], if a.ok && a.source then ids + [q] else ids, sendTick)
  {
    if fb == [] {
      assert fb + [a] == [a] && [a][1..] == [];
    } else {
      var rest := if fb[0].ok && fb[0].source then ids[1..] else ids;
      CarriesSnoc(fb[1..], rest, sendTick, a, q);
      assert (fb + [a])[1..] == fb[1..] + [a];
      if fb[0].ok && fb[0].source && a.ok && a.source {
        assert (ids + [q])[1..] == ids[1..] + [q];
      }
    }
  }

  /** A queue is filled in time order. */
  ghost predicate InOrder(fb: seq<Ack>, now: nat) {
    && (forall i, j :: 0 <= i < j < |fb| ==> fb[i].tick <= fb[j].tick)
    && (forall i :: 0 <= i < |fb| ==> fb[i].tick <= now)
  }

  // ---- counters

  /** How many of the first n outcomes of a channel are losses. */
  function LossesIn(channel: seq<bool>, n: nat): nat {
    if n == 0 then 0 else LossesIn(channel, n - 1) + (if n <= |channel| && channel[n - 1] then 1 else 0)
  }

  /**
   * Everything a path sent is one of three kinds, and either arrived or was lost; the losses are those the channel
   * had for it.
   */
  ghost predicate PathCounts(p: Path) {
    && p.capacity > 0 && p.sent == p.src + p.fec + p.arq && p.sent == p.arrived + p.lost && p.wireIdx == p.sent
    && p.lost == LossesIn(p.channel, p.sent)
  }

  /** One more symbol of one kind on a path, with its outcome queued for feedback. */
  datatype Kind = AsSource | AsRepair | AsRetransmit

  function SendOn(p: Path, kind: Kind, tick: nat): Path {
    var lost := WireLost(p);
    p.(wireIdx := p.wireIdx + 1, sent := p.sent + 1,
       src := if kind == AsSource then p.src + 1 else p.src,
       fec := if kind == AsRepair then p.fec + 1 else p.fec,
       arq := if kind == AsRetransmit then p.arq + 1 else p.arq,
       lost := if lost then p.lost + 1 else p.lost,
       arrived := if lost then p.arrived else p.arrived + 1,
       feedback := p.feedback + [Ack(tick, !lost, kind == AsSource)])
  }

  /** The channel outcome of the next wire slot; past the prepared outcomes nothing is lost. */
  predicate WireLost(p: Path) { p.wireIdx < |p.channel| && p.channel[p.wireIdx] }

  function Sents(ps: seq<Path>): (r: seq<nat>)
    ensures |r| == |ps| && forall i :: 0 <= i < |ps| ==> r[i] == ps[i].sent
  {
    seq(|ps|, i requires 0 <= i < |ps| => ps[i].sent)
  }

  function Arriveds(ps: seq<Path>): (r: seq<nat>)
    ensures |r| == |ps| && forall i :: 0 <= i < |ps| ==> r[i] == ps[i].arrived
  {
    seq(|ps|, i requires 0 <= i < |ps| => ps[i].arrived)
  }

  function Queued(ps: seq<Path>): (r: seq<nat>)
    ensures |r| == |ps| && forall i :: 0 <= i < |ps| ==> r[i] == SourceAcks(ps[i].feedback)
  {
    seq(|ps|, i requires 0 <= i < |ps| => SourceAcks(ps[i].feedback))
  }

  function Credits(ps: seq<Path>): (r: seq<real>)
    ensures |r| == |ps| && forall i :: 0 <= i < |ps| ==> r[i] == ps[i].stripeCredit
  {
    seq(|ps|, i requires 0 <= i < |ps| => ps[i].stripeCredit)
  }

  lemma {:induction false} AcksSnoc(fb: seq<Ack>, a: Ack)
    ensures SourceAcks(fb + [a]) == SourceAcks(fb) + (if a.ok && a.source then 1 else 0)
  {
    if fb == [] {
      assert fb + [a] == [a] && [a][1..] == [];
    } else {
      AcksSnoc(fb[1..], a);
      assert (fb + [a])[1..] == fb[1..] + [a];
    }
  }

  /** Sending one symbol moves every total by exactly what it should. */
  lemma TotalsAfterSend(ps: seq<Path>, i: nat, kind: Kind, tick: nat)
    requires i < |ps|
    ensures var after := ps[i := SendOn(ps[i], kind, tick)];
      && Sum(Sents(after)) == Sum(Sents(ps)) + 1
      && Sum(Arriveds(after)) == Sum(Arriveds(ps)) + (if WireLost(ps[i]) then 0 else 1)
      && Sum(Queued(after)) == Sum(Queued(ps)) + (if kind == AsSource && !WireLost(ps[i]) then 1 else 0)
      && Credits(after) == Credits(ps)
  {
    hide Sum, SourceAcks, Total;
    var p := SendOn(ps[i], kind, tick);
    var after := ps[i := p];
    AcksSnoc(ps[i].feedback, Ack(tick, !WireLost(ps[i]), kind == AsSource));
    SumUpdate(Sents(ps), i, p.sent);
    SumUpdate(Arriveds(ps), i, p.arrived);
    SumUpdate(Queued(ps), i, SourceAcks(p.feedback));
    assert Sents(after) == Sents(ps)[i := p.sent];
    assert Arriveds(after) == Arriveds(ps)[i := p.arrived];
    assert Queued(after) == Queued(ps)[i := SourceAcks(p.feedback)];
  }

  // ---- the groups of facts every step keeps

  ghost predicate Counts(ps: seq<Path>, cumSent: nat, cumArrived: nat, src: nat, fec: nat, arq: nat) {
    && (forall i :: 0 <= i < |ps| ==> PathCounts(ps[i]))
    && cumSent == Sum(Sents(ps)) && cumArrived == Sum(Arriveds(ps))
    && cumSent == src + fec + arq
  }

  lemma CountsAfterSend(ps: seq<Path>, i: nat, kind: Kind, tick: nat, cumSent: nat, cumArrived: nat, src: nat,
        fec: nat, arq: nat)
    requires Counts(ps, cumSent, cumArrived, src, fec, arq) && i < |ps|
    ensures Counts(ps[i := SendOn(ps[i], kind, tick)], cumSent + 1, cumArrived + (if WireLost(ps[i]) then 0 else 1),
                   src + (if kind == AsSource then 1 else 0), fec + (if kind == AsRepair then 1 else 0),
                   arq + (if kind == AsRetransmit then 1 else 0))
  {
    hide Sum, PathCounts, SendOn, WireLost;
    TotalsAfterSend(ps, i, kind, tick);
    CountedAfterSend(ps[i], kind, tick);
  }

  lemma CountedAfterSend(p: Path, kind: Kind, tick: nat)
    requires PathCounts(p)
    ensures PathCounts(SendOn(p, kind, tick))
  {}

  ghost predicate Increasing(ids: seq<nat>) {
    forall i, j :: 0 <= i < j < |ids| ==> ids[i] < ids[j]
  }

  /** What waits on one path: in time order, for decoded sources, each once; none of them below the floor. */
  ghost predicate Waiting(p: Path, ids: seq<nat>, sendTick: seq<nat>, decoded: set<nat>, now: nat, floor: nat) {
    && InOrder(p.feedback, now) && Carries(p.feedback, ids, sendTick) && Increasing(ids)
    && forall i :: 0 <= i < |ids| ==> ids[i] in decoded && floor <= ids[i] < |sendTick|
  }

  /** No source waits on two paths. */
  ghost predicate Separate(acks: seq<seq<nat>>) {
    forall i, j, a, b :: 0 <= i < j < |acks| && 0 <= a < |acks[i]| && 0 <= b < |acks[j]| ==> acks[i][a] != acks[j][b]
  }

  /** On a path no slower than the aggregate clock, nothing acknowledged by the frontier still waits. */
  function FloorOn(p: Path, clock: nat, acked: nat): nat { if p.rttTicks <= clock then acked else 0 }

  ghost predicate Queues(ps: seq<Path>, acks: seq<seq<nat>>, sendTick: seq<nat>, decoded: set<nat>, now: nat,
        clock: nat, acked: nat) {
    && |acks| == |ps| && Separate(acks)
    && forall i :: 0 <= i < |ps| ==> Waiting(ps[i], acks[i], sendTick, decoded, now, FloorOn(ps[i], clock, acked))
  }

  lemma SeparateSnoc(acks: seq<seq<nat>>, i: nat, q: nat)
    requires Separate(acks) && i < |acks| && forall p, j :: 0 <= p < |acks| && 0 <= j < |acks[p]| ==> acks[p][j] < q
    ensures Separate(acks[i := acks[i] + [q]])
  {}

  lemma SeparateSuffixes(acks: seq<seq<nat>>, left: seq<seq<nat>>)
    requires Separate(acks) && |left| == |acks|
    requires forall i :: 0 <= i < |acks| ==> |left[i]| <= |acks[i]| && left[i] == acks[i][|acks[i]| - |left[i]|..]
    ensures Separate(left)
  {
    forall i, j, a, b | 0 <= i < j < |left| && 0 <= a < |left[i]| && 0 <= b < |left[j]|
      ensures left[i][a] != left[j][b]
    {
      assert left[i][a] == acks[i][|acks[i]| - |left[i]| + a] && left[j][b] == acks[j][|acks[j]| - |left[j]| + b];
    }
  }

  /** No acknowledgement is overdue. */
  ghost predicate Recent(p: Path, now: nat) {
    forall a :: a in p.feedback ==> a.tick + p.rttTicks > now
  }

  lemma WaitingKept(p: Path, ids: seq<nat>, sendTick: seq<nat>, decoded: set<nat>, more: set<nat>, now: nat, floor: nat)
    requires Waiting(p, ids, sendTick, decoded, now, floor) && decoded <= more
    ensures Waiting(p, ids, sendTick, more, now, floor)
  {}

  lemma WaitingAfterSend(p: Path, ids: seq<nat>, sendTick: seq<nat>, decoded: set<nat>, now: nat, floor: nat,
        kind: Kind, q: nat)
    requires Waiting(p, ids, sendTick, decoded, now, floor) && p.rttTicks > 0
    requires kind == AsSource && !WireLost(p) ==>
      q < |sendTick| && sendTick[q] == now && q in decoded && floor <= q && forall i :: 0 <= i < |ids| ==> ids[i] < q
    ensures Waiting(SendOn(p, kind, now), if kind == AsSource && !WireLost(p) then ids + [q] else ids,
      sendTick, decoded, now, floor)
    ensures Recent(p, now) ==> Recent(SendOn(p, kind, now), now)
  {
    CarriesSnoc(p.feedback, ids, sendTick, Ack(now, !WireLost(p), kind == AsSource), q);
  }

  lemma WaitingLater(p: Path, ids: seq<nat>, sendTick: seq<nat>, decoded: set<nat>, now: nat, floor: nat, tick: nat)
    requires Waiting(p, ids, sendTick, decoded, now, floor)
    ensures Waiting(p, ids, sendTick + [tick], decoded, now, floor)
      && Waiting(p, ids, sendTick, decoded, now + 1, floor)
  {
    CarriesGrows(p.feedback, ids, sendTick, tick);
  }
}
