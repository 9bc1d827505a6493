/** The two walks over a RAR archive: one without a password and, once a password is known, one with it.
    Nothing here is cut short by caps, deadlines, stalls or solid members. */
module RarWalk {

  /** A member as its header shows it; an oversize member is never read. */
  datatype Member = Dir | File(encrypted: bool, oversize: bool)

  /** Without the password the headers from `hidden` on cannot be read; their members are encrypted. */
  datatype Archive = Archive(members: seq<Member>, hidden: nat)
  {
    predicate Valid() {
      hidden <= |members| && forall i :: hidden <= i < |members| && members[i].File? ==> members[i].encrypted
    }

    /** The headers that a reader sees. */
    function Visible(password: bool): nat
      requires Valid()
    {
      if password then |members| else hidden
    }
  }

  /** One body read: the ordinal that the fresh reader seeks to, the place of the header that the walk had just
      seen, and whether the reader carries the password. */
  datatype Read = Read(ordinal: nat, place: nat, password: bool)

  /** The regular files before place `n`: directories have no ordinal. */
  function Ordinal(members: seq<Member>, n: nat): nat
    requires n <= |members|
  {
    if n == 0 then 0 else Ordinal(members, n - 1) + if members[n - 1].File? then 1 else 0
  }

  /* ---------------------------------------------------------------- seeking */

  /** Where a fresh reader ends up: it skips headers and counts regular files. */
  method Seek(archive: Archive, ordinal: nat, password: bool) returns (place: int)
    requires archive.Valid()
    ensures -1 <= place < archive.Visible(password)
    ensures place >= 0 ==> archive.members[place].File? && Ordinal(archive.members, place) == ordinal
    ensures place < 0 ==> forall p :: 0 <= p < archive.Visible(password) && archive.members[p].File?
                            ==> Ordinal(archive.members, p) != ordinal
  {
    var i := 0;
    for p := 0 to archive.Visible(password)
      invariant i == Ordinal(archive.members, p) <= ordinal
      invariant forall q :: 0 <= q < p && archive.members[q].File? ==> Ordinal(archive.members, q) != ordinal
    {
      if archive.members[p].File? {
        if i == ordinal {
          return p;
        }
        i := i + 1;
      }
    }
    forall q | 0 <= q < archive.Visible(password) && archive.members[q].File?
      ensures Ordinal(archive.members, q) != ordinal {
    }
    return -1;
  }

  lemma {:induction false} OrdinalsAscend(members: seq<Member>, a: nat, b: nat)
    requires a <= b <= |members|
    ensures Ordinal(members, a) <= Ordinal(members, b)
    ensures a < b && members[a].File? ==> Ordinal(members, a) < Ordinal(members, b)
    decreases b - a
  {
    if a < b {
      OrdinalsAscend(members, a, b - 1);
    }
  }

  /** No two regular files share an ordinal, so a re-seek by ordinal finds the header that the walk saw. */
  lemma SeekFindsTheHeader(archive: Archive, p: nat, q: nat)
    requires archive.Valid() && p < |archive.members| && q < |archive.members|
    requires archive.members[p].File? && archive.members[q].File?
    requires Ordinal(archive.members, p) == Ordinal(archive.members, q)
    ensures p == q
  {
    if p < q {
      OrdinalsAscend(archive.members, p, q);
    } else if q < p {
      OrdinalsAscend(archive.members, q, p);
    }
  }

  /* ---------------------------------------------------------------- the walks */

  /** What the first walk reads among the first `n` members while no password is found. */
  function PlainReads(members: seq<Member>, n: nat): seq<Read>
    requires n <= |members|
  {
    if n == 0 then []
    else
      var m := members[n - 1];
      PlainReads(members, n - 1)
      + if m.File? && !m.encrypted && !m.oversize then [Read(Ordinal(members, n - 1), n - 1, false)] else []
  }

  /** What the walk with the password reads, when plaintext members before ordinal `done` are behind it. */
  function CrackedReads(members: seq<Member>, n: nat, done: nat): seq<Read>
    requires n <= |members|
  {
    if n == 0 then []
    else
      var m, ordinal := members[n - 1], Ordinal(members, n - 1);
      CrackedReads(members, n - 1, done)
      + if m.File? && !m.oversize && (m.encrypted || ordinal >= done) then [Read(ordinal, n - 1, m.encrypted)] else []
  }

  /** All reads, when the password was found while the first walk stood at `stop`, or never. */
  function AllReads(archive: Archive, stop: nat, found: bool): seq<Read>
    requires archive.Valid() && stop <= archive.hidden
  {
    PlainReads(archive.members, stop)
    + if found then CrackedReads(archive.members, |archive.members|, Ordinal(archive.members, stop)) else []
  }

  function Times(log: seq<Read>, place: nat): nat {
    if log == [] then 0
    else Times(log[..|log| - 1], place) + if log[|log| - 1].place == place then 1 else 0
  }

  lemma {:induction false} TimesAdd(a: seq<Read>, b: seq<Read>, place: nat)
    ensures Times(a + b, place) == Times(a, place) + Times(b, place)
  {
    if b == [] {
      assert a + b == a;
    } else {
      TimesAdd(a, b[..|b| - 1], place);
      assert (a + b)[..|a + b| - 1] == a + b[..|b| - 1];
    }
  }

  lemma {:induction false} PlainTimes(members: seq<Member>, n: nat, place: nat)
    requires n <= |members| && place < |members|
    ensures var m := members[place];
            Times(PlainReads(members, n), place) == if place < n && m.File? && !m.encrypted && !m.oversize then 1 else 0
  {
    if n > 0 {
      PlainTimes(members, n - 1, place);
      LastRead(PlainReads(members, n - 1), PlainReads(members, n), place);
    }
  }

  /** One more read, or none. */
  lemma LastRead(front: seq<Read>, all: seq<Read>, place: nat)
    requires front <= all && |all| <= |front| + 1
    ensures Times(all, place) == Times(front, place) + if |all| > |front| && all[|front|].place == place then 1 else 0
  {
    if |all| == |front| {
      assert all == front;
    } else {
      assert all[..|all| - 1] == front;
    }
  }

  lemma {:induction false} CrackedTimes(members: seq<Member>, n: nat, done: nat, place: nat)
    requires n <= |members| && place < |members|
    ensures var m := members[place];
            Times(CrackedReads(members, n, done), place) ==
            if place < n && m.File? && !m.oversize && (m.encrypted || Ordinal(members, place) >= done) then 1 else 0
  {
    if n > 0 {
      CrackedTimes(members, n - 1, done, place);
      LastRead(CrackedReads(members, n - 1, done), CrackedReads(members, n, done), place);
    }
  }

  /** Both walks together read every plaintext member exactly once and every encrypted member at most once: once
      if the password was found, else never.  Members that are too large are never read. */
  lemma EveryMemberOnce(archive: Archive, stop: nat, found: bool, place: nat)
    requires archive.Valid() && stop <= archive.hidden && place < |archive.members| && archive.members[place].File?
    requires !found ==> stop == archive.hidden
    ensures var m := archive.members[place];
            Times(AllReads(archive, stop, found), place) == if !m.oversize && (!m.encrypted || found) then 1 else 0
  {
    var members := archive.members;
    PlainTimes(members, stop, place);
    if found {
      var done := Ordinal(members, stop);
      CrackedTimes(members, |members|, done, place);
      TimesAdd(PlainReads(members, stop), CrackedReads(members, |members|, done), place);
      if place < stop {
        OrdinalsAscend(members, place, stop);
      } else {
        OrdinalsAscend(members, stop, place);
      }
    } else {
      assert AllReads(archive, stop, found) == PlainReads(members, stop);
    }
  }

  /** Every read names the header just seen: its ordinal belongs to its place, and the reader that seeks it can
      see that far. */
  ghost predicate Aimed(archive: Archive, log: seq<Read>)
    requires archive.Valid()
  {
    forall i :: 0 <= i < |log| ==> AimedAt(archive, log[i])
  }

  ghost predicate AimedAt(archive: Archive, r: Read)
    requires archive.Valid()
  {
    && r.place < archive.Visible(r.password) && archive.members[r.place].File?
    && r.ordinal == Ordinal(archive.members, r.place)
  }

  /* ---------------------------------------------------------------- as it runs */

  /** Reads one body over a reader of its own, which finds its member again by ordinal. */
  method ReadFresh(archive: Archive, ordinal: nat, ghost place: nat, password: bool) returns (found: nat)
    requires archive.Valid() && AimedAt(archive, Read(ordinal, place, password))
    ensures found == place
  {
    var at := Seek(archive, ordinal, password);
    SeekFindsTheHeader(archive, if at < 0 then place else at, place);
    return at;
  }

  /** The walk with the password, over a reader that sees every header. */
  method WalkCracked(archive: Archive, plainDone: nat) returns (log: seq<Read>)
    requires archive.Valid()
    ensures log == CrackedReads(archive.members, |archive.members|, plainDone) && Aimed(archive, log)
  {
    log := [];
    var idx := -1;
    for p := 0 to |archive.members|
      invariant idx + 1 == Ordinal(archive.members, p)
      invariant log == CrackedReads(archive.members, p, plainDone) && Aimed(archive, log)
    {
      var m := archive.members[p];
      if m.File? {
        idx := idx + 1;
        if m.encrypted {
          if !m.oversize {
            var place := ReadFresh(archive, idx, p, true);
            log := log + [Read(idx, place, true)];
          }
        } else if idx >= plainDone && !m.oversize {
          var place := ReadFresh(archive, idx, p, false);
          log := log + [Read(idx, place, false)];
        }
      }
    }
  }

  /** Where the first walk tries the candidates: at every encrypted member, and where the readable headers end too
      early. */
  predicate Tries(archive: Archive, p: nat)
    requires archive.Valid() && p <= archive.hidden
  {
    p < |archive.members| && (p == archive.hidden || (archive.members[p].File? && archive.members[p].encrypted))
  }

  /** The walk without a password.  `cracks[p]` tells whether trying the candidates at place `p` finds the
      password; the last entry is for the end of the readable headers. */
  method WalkMembers(archive: Archive, cracks: seq<bool>) returns (log: seq<Read>, ghost stop: nat, ghost found: bool)
    requires archive.Valid() && |cracks| == archive.hidden + 1
    ensures stop <= archive.hidden && (!found ==> stop == archive.hidden)
    ensures log == AllReads(archive, stop, found) && Aimed(archive, log)
    ensures found <==> exists p: nat :: p <= archive.hidden && Tries(archive, p) && cracks[p]
    ensures found ==> Tries(archive, stop) && cracks[stop]
    ensures forall p :: 0 <= p < stop && Tries(archive, p) ==> !cracks[p]
  {
    log := [];
    var idx, p := -1, 0;
    while p < archive.hidden
      invariant 0 <= p <= archive.hidden && idx + 1 == Ordinal(archive.members, p)
      invariant log == PlainReads(archive.members, p) && Aimed(archive, log)
      invariant forall q :: 0 <= q < p && Tries(archive, q) ==> !cracks[q]
    {
      var m := archive.members[p];
      if m.File? {
        idx := idx + 1;
        if m.encrypted {
          if cracks[p] {
            assert Tries(archive, p);
            var rest := WalkCracked(archive, idx);
            return log + rest, p, true;
          }
        } else if !m.oversize {
          var place := ReadFresh(archive, idx, p, false);
          log := log + [Read(idx, place, false)];
        }
      }
      p := p + 1;
    }
    if archive.hidden < |archive.members| && cracks[archive.hidden] {
      assert Tries(archive, archive.hidden);
      var rest := WalkCracked(archive, idx + 1);
      return log + rest, p, true;
    }
    assert log + [] == log;
    return log, p, false;
  }
}
