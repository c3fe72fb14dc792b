/** Any number of processes appending to one ledger file: lock, tail, write in pieces, commit, undo, die.
    The invariants hold after every step of every run, whatever the interleaving. */
module LedgerRuns {
  import opened Texts
  import opened JsonValues
  import opened Chain
  import opened LedgerEntries
  import opened Ledger
  import opened CrashSafety

  /** What the holder of the lock is doing; `done` bytes of its write have reached the file. */
  datatype Holder =
    | Nobody
    | Reading(pid: int)
    | Writing(pid: int, data: Json, ts: Text, done: nat)

  /** An append that returned, with the place its record took. */
  datatype Ack = Ack(place: nat, entry: Json)

  /** The file, the lock and the acknowledged appends. `whole` is what the file held when it last ended in a
      finished write: the file itself, unless a write is under way or was cut short. */
  datatype Machine = Machine(file: Text, holder: Holder, whole: Text, acks: seq<Ack>)

  datatype Step =
    | Lock(p: int)
    | Refuse(p: int)
    | Begin(p: int, data: Json, ts: Text)
    | Write(p: int, n: nat)
    | Commit(p: int)
    | Undo(p: int)
    | Abandon(p: int)
    | Die(p: int, kept: nat)

  ghost predicate WritingWell(h: Hash, s: Machine)
  {
    s.holder.Writing? && Appendable(h, s.whole, s.holder.data, s.holder.ts) &&
    s.holder.done <= |PendingAt(h, s.whole, s.holder.data, s.holder.ts)|
  }

  /** The state a file is left in when its writer goes: it counts as whole if it can be continued. */
  ghost function Released(file: Text, whole: Text, acks: seq<Ack>): (r: Machine)
  {
    Machine(file, Nobody, if TailOf(file).Some? then file else whole, acks)
  }

  ghost predicate Next(h: Hash, s: Machine, step: Step, s': Machine)
  {
    match step
    case Lock(p) => s.holder.Nobody? && s' == s.(holder := Reading(p))
    case Refuse(p) => s.holder == Reading(p) && s' == s.(holder := Nobody)
    case Begin(p, data, ts) =>
      && s.holder == Reading(p) && Appendable(h, s.file, data, ts)
      && s' == s.(holder := Writing(p, data, ts, 0), whole := s.file)
    case Write(p, n) =>
      && WritingWell(h, s) && s.holder.pid == p && 0 < n
      && var pending := PendingAt(h, s.whole, s.holder.data, s.holder.ts);
         && s.holder.done + n <= |pending|
         && s' == s.(file := s.file + pending[s.holder.done..s.holder.done + n],
                     holder := s.holder.(done := s.holder.done + n))
    case Commit(p) =>
      && WritingWell(h, s) && s.holder.pid == p
      && s.holder.done == |PendingAt(h, s.whole, s.holder.data, s.holder.ts)|
      && s' == Machine(s.file, Nobody, s.file, s.acks + [NewAck(h, s.whole, s.holder.data, s.holder.ts)])
    case Undo(p) =>
      && WritingWell(h, s) && s.holder.pid == p && |s.whole| <= |s.file|
      && s' == Machine(s.file[..|s.whole|], Nobody, s.whole, s.acks)
    case Abandon(p) => WritingWell(h, s) && s.holder.pid == p && s' == Released(s.file, s.whole, s.acks)
    case Die(p, kept) =>
      || (s.holder == Reading(p) && s' == s.(holder := Nobody))
      || (WritingWell(h, s) && s.holder.pid == p && kept <= s.holder.done
          && s' == Released(Torn(h, s.whole, s.holder.data, s.holder.ts, kept), s.whole, s.acks))
  }

  ghost function NewAck(h: Hash, b: Text, data: Json, ts: Text): (r: Ack)
    requires Appendable(h, b, data, ts)
  {
    Ack(|EntriesIn(b)|, Record(h, b, data, ts).value)
  }

  ghost function EntriesIn(b: Text): (r: seq<Json>)
  {
    if ReadEntries(b).Some? then ReadEntries(b).value else []
  }

  /** Every acknowledged record is where its append put it, each at a place of its own. */
  ghost predicate Holds(es: seq<Json>, acks: seq<Ack>)
  {
    && (forall i :: 0 <= i < |acks| ==> acks[i].place < |es| && es[acks[i].place] == acks[i].entry)
    && (forall i, j :: 0 <= i < j < |acks| ==> acks[i].place < acks[j].place)
  }

  /** What every reachable state keeps, for a run that starts with the file `start`. */
  ghost predicate Inv(h: Hash, start: Text, s: Machine)
  {
    && EntriesIn(start) <= EntriesIn(s.whole)
    && Holds(EntriesIn(s.whole), s.acks)
    && (Sound(h, s.whole) <==> Sound(h, start))
    && if s.holder.Writing? then
         WritingWell(h, s) && s.file == Torn(h, s.whole, s.holder.data, s.holder.ts, s.holder.done)
       else s.file == s.whole || (TailOf(s.file).None? && s.whole <= s.file)
  }

  ghost predicate Init(start: Text, s: Machine)
  {
    s == Machine(start, Nobody, start, [])
  }

  lemma InitInv(h: Hash, start: Text, s: Machine)
    requires Init(start, s)
    ensures Inv(h, start, s)
  {
    hide Sound, TailOf, EntriesIn;
  }

  // ---- steps -------------------------------------------------------------------------------------

  /** The entries of a file that a write has left whole. */
  lemma HoldsMore(es: seq<Json>, more: seq<Json>, acks: seq<Ack>)
    requires es <= more && Holds(es, acks)
    ensures Holds(more, acks)
  {
    forall i | 0 <= i < |acks| ensures more[acks[i].place] == acks[i].entry {
      assert es[acks[i].place] == acks[i].entry;
    }
  }

  lemma HoldsNew(es: seq<Json>, e: Json, acks: seq<Ack>)
    requires Holds(es, acks)
    ensures Holds(es + [e], acks + [Ack(|es|, e)])
  {}

  /** However much of a write is left behind: the file still counts as whole, with the same verdict and at
      most the one new record, or it can not be continued. */
  lemma LeftBehind(h: Hash, b: Text, data: Json, ts: Text, k: nat)
    requires Appendable(h, b, data, ts) && k <= |PendingAt(h, b, data, ts)|
    ensures var torn := Torn(h, b, data, ts, k);
      && b <= torn
      && (TailOf(torn).Some? ==> EntriesIn(b) <= EntriesIn(torn) && (Sound(h, torn) <==> Sound(h, b)))
  {
    hide *;
    var torn := Torn(h, b, data, ts, k);
    TornExtends(h, b, data, ts, k);
    if TailOf(torn).Some? {
      Parts(h, b, data, ts);
      var es, e := ReadEntries(b).value, Record(h, b, data, ts).value;
      TornEntries(h, b, data, ts, k, torn, es, e);
      TailReads(torn);
      OneMoreVerdict(h, b, torn, es, e);
    }
  }

  lemma TornExtends(h: Hash, b: Text, data: Json, ts: Text, k: nat)
    requires Appendable(h, b, data, ts) && k <= |PendingAt(h, b, data, ts)|
    ensures b <= Torn(h, b, data, ts, k)
  {
    hide PendingAt, Appendable;
  }

  lemma TailReads(b: Text)
    ensures TailOf(b).Some? ==> ReadEntries(b).Some?
  {}

  lemma OneMoreVerdict(h: Hash, b: Text, torn: Text, es: seq<Json>, e: Json)
    requires ReadEntries(b) == Some(es) && (ReadEntries(torn) == Some(es) || ReadEntries(torn) == Some(es + [e]))
    requires Storable(e) && Links(h, e, |es|, PrevHash(es, |es|))
    ensures EntriesIn(b) <= EntriesIn(torn) && (Sound(h, torn) <==> Sound(h, b))
  {
    hide ReadEntries, Sound, Linked, FileOk, Storable, Links, PrevHash;
    SoundIsLinked(h, b, es);
    SoundIsLinked(h, torn, ReadEntries(torn).value);
    OneMore(h, es, e);
  }

  lemma WholeWrite(h: Hash, b: Text, data: Json, ts: Text)
    requires Appendable(h, b, data, ts)
    ensures var all := |PendingAt(h, b, data, ts)|;
      && Record(h, b, data, ts).Some?
      && EntriesIn(Torn(h, b, data, ts, all)) == EntriesIn(b) + [Record(h, b, data, ts).value]
      && (Sound(h, Torn(h, b, data, ts, all)) <==> Sound(h, b))
  {
    hide ReadEntries, Sound, Appendable, Record, PendingAt, FileOk, TailOf;
    var pending := PendingAt(h, b, data, ts);
    assert pending[..|pending|] == pending;
    AppendKeepsVerdict(h, b, data, ts);
    Parts(h, b, data, ts);
    SoundIsLinked(h, b, ReadEntries(b).value);
    var es := ReadEntries(b).value + [Record(h, b, data, ts).value];
    SoundIsLinked(h, b + pending, es);
  }

  lemma WriteStep(h: Hash, b: Text, data: Json, ts: Text, k: nat, n: nat)
    requires Appendable(h, b, data, ts) && k + n <= |PendingAt(h, b, data, ts)|
    ensures Torn(h, b, data, ts, k) + PendingAt(h, b, data, ts)[k..k + n] == Torn(h, b, data, ts, k + n)
  {
    hide PendingAt, Appendable;
    var p := PendingAt(h, b, data, ts);
    assert p[..k + n] == p[..k] + p[k..k + n];
    assert b + p[..k] + p[k..k + n] == b + (p[..k] + p[k..k + n]);
  }

  lemma NothingTorn(h: Hash, b: Text, data: Json, ts: Text)
    requires Appendable(h, b, data, ts)
    ensures Torn(h, b, data, ts, 0) == b
  {
    hide PendingAt, Appendable;
  }

  lemma AppendableTail(h: Hash, b: Text, data: Json, ts: Text)
    requires Appendable(h, b, data, ts)
    ensures TailOf(b).Some?
  {}

  /** Every step of every process keeps the invariant. */
  lemma NextKeepsInv(h: Hash, start: Text, s: Machine, step: Step, s': Machine)
    requires Inv(h, start, s) && Next(h, s, step, s')
    ensures Inv(h, start, s')
  {
    hide Appendable, PendingAt, Torn, TailOf, EntriesIn, Holds, Sound, Record;
    match step {
      case Begin(p, data, ts) =>
        AppendableTail(h, s.file, data, ts);
        NothingTorn(h, s.file, data, ts);
      case Write(p, n) => WriteStep(h, s.whole, s.holder.data, s.holder.ts, s.holder.done, n);
      case Commit(p) =>
        WholeWrite(h, s.whole, s.holder.data, s.holder.ts);
        HoldsNew(EntriesIn(s.whole), Record(h, s.whole, s.holder.data, s.holder.ts).value, s.acks);
      case Undo(p) => TornExtends(h, s.whole, s.holder.data, s.holder.ts, s.holder.done);
      case Abandon(p) => ReleaseKeepsInv(h, start, s, s.holder.done);
      case Die(p, kept) => if s.holder.Writing? { ReleaseKeepsInv(h, start, s, kept); }
      case _ =>
    }
  }

  lemma ReleaseKeepsInv(h: Hash, start: Text, s: Machine, kept: nat)
    requires Inv(h, start, s) && WritingWell(h, s) && kept <= s.holder.done
    ensures Inv(h, start, Released(Torn(h, s.whole, s.holder.data, s.holder.ts, kept), s.whole, s.acks))
  {
    hide Appendable, PendingAt, Torn, TailOf, EntriesIn, Holds, Sound, Record;
    var torn := Torn(h, s.whole, s.holder.data, s.holder.ts, kept);
    LeftBehind(h, s.whole, s.holder.data, s.holder.ts, kept);
    if TailOf(torn).Some? { HoldsMore(EntriesIn(s.whole), EntriesIn(torn), s.acks); }
  }

  // ---- runs --------------------------------------------------------------------------------------

  ghost predicate Run(h: Hash, states: seq<Machine>, steps: seq<Step>)
  {
    && |states| == |steps| + 1
    && forall i :: 0 <= i < |steps| ==> Next(h, states[i], steps[i], states[i + 1])
  }

  lemma {:induction false} RunKeepsInv(h: Hash, start: Text, states: seq<Machine>, steps: seq<Step>, n: nat)
    requires Run(h, states, steps) && Init(start, states[0]) && n <= |steps|
    ensures Inv(h, start, states[n])
    ensures n > 0 ==> states[n - 1].acks <= states[n].acks
  {
    hide Inv, Init, Next;
    if n == 0 {
      InitInv(h, start, states[0]);
    } else {
      RunKeepsInv(h, start, states, steps, n - 1);
      assert Next(h, states[n - 1], steps[n - 1], states[n]);
      NextKeepsInv(h, start, states[n - 1], steps[n - 1], states[n]);
      AcksGrow(h, states[n - 1], steps[n - 1], states[n]);
    }
  }

  lemma AcksGrow(h: Hash, s: Machine, step: Step, s': Machine)
    requires Next(h, s, step, s')
    ensures s.acks <= s'.acks
  {
    hide Appendable, PendingAt, Torn, TailOf;
  }

  /** One chain, after any run of any number of processes from a file that is sound: unless a write is under
      way, the file verifies (or is still empty) and holds every acknowledged record exactly once, at the
      index it was given; or a cut write stands at its end, everything before it is such a chain, and no
      process can append until it has been repaired. */
  lemma OneChain(h: Hash, start: Text, states: seq<Machine>, steps: seq<Step>, n: nat)
    requires Run(h, states, steps) && Init(start, states[0]) && n <= |steps| && Sound(h, start)
    ensures var s := states[n];
      && Sound(h, s.whole) && EntriesIn(start) <= EntriesIn(s.whole)
      && (forall i :: 0 <= i < |s.acks| ==> OnlyAt(EntriesIn(s.whole), s.acks[i].entry, s.acks[i].place))
      && (!s.holder.Writing? ==> s.file == s.whole || (s.whole <= s.file && Closed(h, s.file)))
  {
    hide Init, Next, Sound, EntriesIn, TailOf;
    RunKeepsInv(h, start, states, steps, n);
    var s := states[n];
    forall i | 0 <= i < |s.acks| ensures OnlyAt(EntriesIn(s.whole), s.acks[i].entry, s.acks[i].place) {
      SoundPlaces(h, s.whole, s.acks[i].place);
    }
    NotContinued(h, s.file);
  }

  /** The entry stands at this place and at no other. */
  ghost predicate OnlyAt(es: seq<Json>, e: Json, place: nat)
  {
    forall k :: 0 <= k < |es| ==> (es[k] == e <==> k == place)
  }

  /** No append is possible, of anything. */
  ghost predicate Closed(h: Hash, b: Text)
  {
    forall data: Json, ts: Text :: !Appendable(h, b, data, ts)
  }

  lemma NotContinued(h: Hash, b: Text)
    ensures TailOf(b).None? ==> Closed(h, b)
  {
    hide TailOf;
  }

  /** A record of a sound ledger carries its place, so it can not stand twice. */
  lemma SoundPlaces(h: Hash, b: Text, place: nat)
    requires Sound(h, b) && place < |EntriesIn(b)|
    ensures OnlyAt(EntriesIn(b), EntriesIn(b)[place], place)
  {
    hide ReadEntries, Sound, Links;
    SoundIsLinked(h, b, ReadEntries(b).value);
    var es := EntriesIn(b);
    forall k | 0 <= k < |es| ensures es[k] == es[place] <==> k == place {
      assert LinkedAt(h, es, k) && LinkedAt(h, es, place);
      PlaceOfLink(h, es[k], k, PrevHash(es, k));
      PlaceOfLink(h, es[place], place, PrevHash(es, place));
    }
  }

  lemma PlaceOfLink(h: Hash, e: Json, k: nat, prev: Text)
    requires Profile(e) && Links(h, e, k, prev)
    ensures Get(Members(e), IDX()) == Some(Int(k))
  {}

  // ---- the method is a run -------------------------------------------------------------------------

  /** What one call of `Append` under the lock does is a run of one process: every result the contract of the
      method allows is reached by steps of the machine, so the theorems about runs are about the method. */
  lemma AppendIsARun(h: Hash, s: Machine, data: Json, ts: Text, after: Text, r: Outcome)
      returns (states: seq<Machine>, steps: seq<Step>)
    requires s.holder.Nobody? && Settled(h, s.file, after, data, ts, true, r)
    ensures Run(h, states, steps) && states[0] == s
    ensures forall i :: 0 <= i < |steps| && steps[i].Begin? ==> steps[i].data == data
    ensures var last := states[|steps|];
      && last.file == after && last.holder.Nobody? && (r.Appended? ==> last.whole == after)
      && last.acks == if r.Appended? then s.acks + [Ack(|EntriesIn(s.file)|, r.entry)] else s.acks
  {
    hide Appendable, PendingAt, TailOf, EntriesIn, Record, Torn;
    var s1 := s.(holder := Reading(0));
    states, steps := [s, s1], [Lock(0)];
    if r.Refused? {
      states, steps := [s, s1, s], [Lock(0), Refuse(0)];
      return;
    }
    var pending := PendingAt(h, s.file, data, ts);
    var k: nat := |pending|;
    if r.Failed? { k :| CutAt(s.file, pending, after, k); }
    assert pending[..|pending|] == pending;
    if r.Failed? && after == s.file { k := 0; assert s.file + pending[..0] == s.file; }
    var s2 := s.(holder := Writing(0, data, ts, 0), whole := s.file);
    var s3 := s2.(file := after, holder := Writing(0, data, ts, k));
    if k > 0 { assert pending[0..k] == pending[..k]; }
    if r.Appended? {
      PendingNonEmpty(h, s.file, data, ts);
      var s4 := Machine(after, Nobody, after, s.acks + [NewAck(h, s.file, data, ts)]);
      states, steps := [s, s1, s2, s3, s4], [Lock(0), Begin(0, data, ts), Write(0, k), Commit(0)];
    } else {
      var s4 := Released(after, s.file, s.acks);
      if k > 0 {
        states, steps := [s, s1, s2, s3, s4], [Lock(0), Begin(0, data, ts), Write(0, k), Abandon(0)];
      } else {
        states, steps := [s, s1, s2, s4], [Lock(0), Begin(0, data, ts), Abandon(0)];
      }
    }
  }

  lemma PendingNonEmpty(h: Hash, b: Text, data: Json, ts: Text)
    requires Appendable(h, b, data, ts)
    ensures PendingAt(h, b, data, ts) != []
  {
    hide ReadEntries, Profile, Storable;
    Parts(h, b, data, ts);
  }

  /** A run can be continued. */
  lemma RunJoin(h: Hash, a: seq<Machine>, sa: seq<Step>, b: seq<Machine>, sb: seq<Step>)
    requires Run(h, a, sa) && Run(h, b, sb) && a[|sa|] == b[0]
    ensures Run(h, a + b[1..], sa + sb)
    ensures (a + b[1..])[|sa + sb|] == b[|sb|] && (a + b[1..])[0] == a[0]
  {
    hide Next;
    var states, steps := a + b[1..], sa + sb;
    forall i | 0 <= i < |steps| ensures Next(h, states[i], steps[i], states[i + 1]) {
      if i < |sa| {
        assert Next(h, a[i], sa[i], a[i + 1]);
      } else {
        var k := i - |sa|;
        assert Next(h, b[k], sb[k], b[k + 1]);
        assert states[i] == b[k] && states[i + 1] == b[k + 1];
      }
    }
  }

  /** Acknowledged appends stay acknowledged to the end of a run. */
  lemma {:induction false} AcksKept(h: Hash, states: seq<Machine>, steps: seq<Step>, n: nat)
    requires Run(h, states, steps) && n <= |steps|
    ensures states[0].acks <= states[n].acks
  {
    hide Next;
    if n > 0 {
      AcksKept(h, states, steps, n - 1);
      assert Next(h, states[n - 1], steps[n - 1], states[n - 1 + 1]);
      AcksGrow(h, states[n - 1], steps[n - 1], states[n]);
    }
  }
}
