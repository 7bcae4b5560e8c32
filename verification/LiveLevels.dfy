/**
 The live loudness board: the peers behind their mutex, our own level, and the
 version counter that lets a reader skip the copy. Levels are compared as
 values; how readers and writers interleave is the subject of LevelRuns.
 */
module Levels {
  import opened Wrappers

  datatype Level = Level(name: string, level: real)
  datatype Peer = Peer(name: string, level: real, seen: bool)
  {
    function Shown(): Level {
      Level(name, level)
    }
  }

  ghost predicate Distinct(levels: seq<Level>) {
    forall i, j :: 0 <= i < j < |levels| ==> levels[i].name != levels[j].name
  }

  /** What a reader copies. */
  function Shown(peers: seq<Peer>): (s: seq<Level>)
    ensures |s| == |peers|
  {
    seq(|peers|, i requires 0 <= i < |peers| => peers[i].Shown())
  }

  function Unseen(peers: seq<Peer>): (p: seq<Peer>)
    ensures |p| == |peers|
  {
    seq(|peers|, i requires 0 <= i < |peers| => peers[i].(seen := false))
  }

  /** The first place `name` stands at, or the length. */
  function Find(peers: seq<Peer>, name: string): (k: nat)
    ensures k <= |peers|
    ensures k < |peers| ==> peers[k].name == name
    ensures forall i :: 0 <= i < k ==> peers[i].name != name
  {
    if peers == [] || peers[0].name == name then 0 else 1 + Find(peers[1..], name)
  }

  /** Peers while a publication is being written, and whether anything changed so far. */
  datatype Draft = Draft(peers: seq<Peer>, changed: bool)

  function Note(d: Draft, l: Level): Draft {
    var k := Find(d.peers, l.name);
    if k < |d.peers| then
      Draft(d.peers[k := Peer(l.name, l.level, true)], d.changed || d.peers[k].level != l.level)
    else
      Draft(d.peers + [Peer(l.name, l.level, true)], true)
  }

  function NoteAll(peers: seq<Peer>, levels: seq<Level>): Draft {
    if levels == [] then Draft(Unseen(peers), false)
    else Note(NoteAll(peers, levels[..|levels| - 1]), levels[|levels| - 1])
  }

  function Retain(peers: seq<Peer>): (r: seq<Peer>)
    ensures |r| <= |peers|
  {
    if peers == [] then []
    else Retain(peers[..|peers| - 1]) + if peers[|peers| - 1].seen then [peers[|peers| - 1]] else []
  }

  /** One publication: the new peers and whether the version moves. */
  function Publish(peers: seq<Peer>, levels: seq<Level>): Draft {
    var d := NoteAll(peers, levels);
    Draft(Retain(d.peers), d.changed || |Retain(d.peers)| != |d.peers|)
  }

  /** The level shown under `name`. */
  function LookUp(peers: seq<Level>, name: string): Option<real> {
    if peers == [] then None
    else if peers[|peers| - 1].name == name then Some(peers[|peers| - 1].level)
    else LookUp(peers[..|peers| - 1], name)
  }

  class LiveLevels {
    var own: real
    var version: nat
    var peers: seq<Peer>

    constructor ()
      ensures own == 0.0 && version == 0 && peers == []
    {
      own, version, peers := 0.0, 0, [];
    }

    method Version() returns (v: nat)
      ensures v == version
    {
      return version;
    }

    /** Copies the shown levels over `out`, slot by slot. */
    method Snapshot(out: seq<Level>) returns (copy: seq<Level>, level: real, v: nat)
      ensures copy == Shown(peers) && level == own && v == version
    {
      v := Version();
      level := own;
      copy := if |out| > |peers| then out[..|peers|] else out;
      for i := 0 to |peers|
        invariant i <= |copy| <= |peers|
        invariant copy[..i] == Shown(peers)[..i]
      {
        if i < |copy| {
          copy := copy[i := peers[i].Shown()];
        } else {
          copy := copy + [peers[i].Shown()];
        }
      }
    }

    method SetOwn(level: real)
      modifies `own, `version
      ensures own == level
      ensures version == old(version) + if old(own) != level then 1 else 0
    {
      var before := own;
      own := level;
      if before != level {
        version := version + 1;
      }
    }

    method Clear()
      modifies this
      ensures own == 0.0 && peers == []
      ensures version == old(version) + (if old(own) != 0.0 then 1 else 0) + if old(peers) != [] then 1 else 0
    {
      SetOwn(0.0);
      RetainNone(peers);
      PublishPeers([]);
    }

    method PublishPeers(levels: seq<Level>)
      modifies `peers, `version
      ensures peers == Publish(old(peers), levels).peers
      ensures version == old(version) + if Publish(old(peers), levels).changed then 1 else 0
    {
      var changed := false;
      ForgetSeen();
      for i := 0 to |levels|
        invariant Draft(peers, changed) == NoteAll(old(peers), levels[..i])
        invariant version == old(version)
      {
        assert levels[..i + 1][..i] == levels[..i];
        var noted := NoteOne(levels[i]);
        changed := changed || noted;
      }
      assert levels[..|levels|] == levels;
      var before := |peers|;
      DropUnseen();
      changed := changed || |peers| != before;
      if changed {
        version := version + 1;
      }
    }

    method ForgetSeen()
      modifies `peers
      ensures peers == Unseen(old(peers))
    {
      for i := 0 to |peers|
        invariant |peers| == |old(peers)|
        invariant forall j :: 0 <= j < |peers| ==> peers[j] == if j < i then old(peers)[j].(seen := false) else old(peers)[j]
      {
        peers := peers[i := peers[i].(seen := false)];
      }
    }

    /** Writes one level; true if it is new or differs. */
    method NoteOne(l: Level) returns (changed: bool)
      modifies `peers
      ensures forall before: bool :: Draft(peers, before || changed) == Note(Draft(old(peers), before), l)
    {
      var k := 0;
      while k < |peers| && peers[k].name != l.name
        invariant k <= |peers| && forall i :: 0 <= i < k ==> peers[i].name != l.name
      {
        k := k + 1;
      }
      if k < |peers| {
        changed := peers[k].level != l.level;
        peers := peers[k := Peer(l.name, l.level, true)];
      } else {
        changed := true;
        peers := peers + [Peer(l.name, l.level, true)];
      }
    }

    method DropUnseen()
      modifies `peers
      ensures peers == Retain(old(peers))
    {
      var kept: seq<Peer> := [];
      for i := 0 to |peers|
        invariant peers == old(peers) && kept == Retain(peers[..i])
      {
        assert peers[..i + 1][..i] == peers[..i];
        if peers[i].seen {
          kept := kept + [peers[i]];
        }
      }
      assert peers[..|peers|] == peers;
      peers := kept;
    }
  }

  lemma {:induction false} RetainNone(peers: seq<Peer>)
    ensures Retain(Unseen(peers)) == []
  {
    if peers != [] {
      assert Unseen(peers)[..|peers| - 1] == Unseen(peers[..|peers| - 1]);
      RetainNone(peers[..|peers| - 1]);
    }
  }

  lemma {:induction false} LookUpAt(levels: seq<Level>, k: nat)
    requires k < |levels| && Distinct(levels)
    ensures LookUp(levels, levels[k].name) == Some(levels[k].level)
  {
    if k < |levels| - 1 {
      LookUpAt(levels[..|levels| - 1], k);
    }
  }

  lemma {:induction false} LookUpNone(levels: seq<Level>, name: string)
    ensures LookUp(levels, name).None? <==> forall i :: 0 <= i < |levels| ==> levels[i].name != name
  {
    if levels != [] {
      LookUpNone(levels[..|levels| - 1], name);
    }
  }

  /** Writing one level changes the answer for its name only. */
  lemma NoteLooksUp(d: Draft, l: Level, name: string)
    requires Distinct(Shown(d.peers))
    ensures Distinct(Shown(Note(d, l).peers))
    ensures LookUp(Shown(Note(d, l).peers), name) == if name == l.name then Some(l.level) else LookUp(Shown(d.peers), name)
  {
    hide LookUp;
    var was, now := Shown(d.peers), Shown(Note(d, l).peers);
    var k := Find(d.peers, l.name);
    assert forall i :: 0 <= i < |was| && i != k ==> now[i] == was[i] && was[i].name != l.name by {
      forall i | 0 <= i < |was| && i != k
        ensures was[i].name != l.name
      {
        if k < |was| {
          assert was[k].name == l.name;
        }
        assert was[i].name == d.peers[i].name;
      }
    }
    assert now[k] == l;
    LookUpNone(was, name);
    LookUpNone(now, name);
    if i: nat :| i < |now| && now[i].name == name {
      LookUpAt(now, i);
      if i != k {
        LookUpAt(was, i);
      }
    }
  }

  lemma {:induction false} NoteAllLooksUp(peers: seq<Peer>, levels: seq<Level>, name: string)
    requires Distinct(Shown(peers))
    ensures var d := NoteAll(peers, levels);
            && Distinct(Shown(d.peers))
            && LookUp(Shown(d.peers), name) == (if LookUp(levels, name).Some? then LookUp(levels, name) else LookUp(Shown(peers), name))
  {
    hide Note;
    if levels == [] {
      assert Shown(Unseen(peers)) == Shown(peers);
    } else {
      var before := levels[..|levels| - 1];
      NoteAllLooksUp(peers, before, name);
      NoteLooksUp(NoteAll(peers, before), levels[|levels| - 1], name);
    }
  }

  /** An entry is seen exactly when its name was published. */
  lemma {:induction false} SeenPublished(peers: seq<Peer>, levels: seq<Level>, k: nat)
    requires Distinct(Shown(peers)) && k < |NoteAll(peers, levels).peers|
    ensures var p := NoteAll(peers, levels).peers[k];
            p.seen <==> LookUp(levels, p.name).Some?
  {
    if levels != [] {
      var before, l := levels[..|levels| - 1], levels[|levels| - 1];
      var d := NoteAll(peers, before);
      NoteAllLooksUp(peers, before, l.name);
      if k < |d.peers| {
        SeenPublished(peers, before, k);
        var f := Find(d.peers, l.name);
        assert k != f && f < |d.peers| ==> Shown(d.peers)[k].name != Shown(d.peers)[f].name;
      }
    }
  }

  lemma {:induction false} RetainMember(peers: seq<Peer>, p: Peer)
    ensures p in Retain(peers) <==> p in peers && p.seen
  {
    if peers != [] {
      RetainMember(peers[..|peers| - 1], p);
    }
  }

  lemma {:induction false} RetainDistinct(peers: seq<Peer>)
    requires Distinct(Shown(peers))
    ensures Distinct(Shown(Retain(peers)))
  {
    if peers != [] {
      var n := |peers| - 1;
      assert Shown(peers)[..n] == Shown(peers[..n]);
      RetainDistinct(peers[..n]);
      var kept := Retain(peers[..n]);
      forall k | 0 <= k < |kept|
        ensures kept[k].name != peers[n].name
      {
        RetainMember(peers[..n], kept[k]);
        var i :| 0 <= i < n && peers[..n][i] == kept[k];
        assert Shown(peers)[i].name != Shown(peers)[n].name;
      }
      var all := Shown(Retain(peers));
      assert all[..|kept|] == Shown(kept);
      forall i, j | 0 <= i < j < |all|
        ensures all[i].name != all[j].name
      {
        if j < |kept| {
          assert all[i] == Shown(kept)[i] && all[j] == Shown(kept)[j];
        }
      }
    }
  }

  lemma {:induction false} RetainAll(peers: seq<Peer>)
    requires |Retain(peers)| == |peers|
    ensures Retain(peers) == peers
  {
    if peers != [] {
      RetainAll(peers[..|peers| - 1]);
    }
  }

  /** After a publication each name shows the level last published under it, and no other name remains. */
  lemma PublishShows(peers: seq<Peer>, levels: seq<Level>, name: string)
    requires Distinct(Shown(peers))
    ensures Distinct(Shown(Publish(peers, levels).peers))
    ensures LookUp(Shown(Publish(peers, levels).peers), name) == LookUp(levels, name)
  {
    hide Retain, LookUp, NoteAll;
    var all := NoteAll(peers, levels).peers;
    var kept := Retain(all);
    NoteAllLooksUp(peers, levels, name);
    RetainDistinct(all);
    LookUpNone(Shown(all), name);
    LookUpNone(Shown(kept), name);
    if i: nat :| i < |all| && all[i].name == name {
      LookUpAt(Shown(all), i);
      SeenPublished(peers, levels, i);
      RetainMember(all, all[i]);
    }
    if j: nat :| j < |kept| && kept[j].name == name {
      LookUpAt(Shown(kept), j);
      RetainMember(all, kept[j]);
      var i :| 0 <= i < |all| && all[i] == kept[j];
      LookUpAt(Shown(all), i);
      SeenPublished(peers, levels, i);
    }
  }

  /** No change flag, no change. */
  lemma {:induction false} UnchangedDraft(peers: seq<Peer>, levels: seq<Level>)
    requires !NoteAll(peers, levels).changed
    ensures Shown(NoteAll(peers, levels).peers) == Shown(peers)
  {
    if levels != [] {
      UnchangedDraft(peers, levels[..|levels| - 1]);
    }
  }

  /** A change flag raised while writing distinct names means some published level is not the one shown before. */
  lemma {:induction false} ChangedDraft(peers: seq<Peer>, levels: seq<Level>) returns (name: string)
    requires Distinct(Shown(peers)) && Distinct(levels)
    requires NoteAll(peers, levels).changed
    ensures LookUp(levels, name).Some? && LookUp(levels, name) != LookUp(Shown(peers), name)
  {
    var before, l := levels[..|levels| - 1], levels[|levels| - 1];
    var d := NoteAll(peers, before);
    LookUpNone(before, l.name);
    if d.changed {
      name := ChangedDraft(peers, before);
    } else {
      name := l.name;
      UnchangedDraft(peers, before);
      var k := Find(d.peers, name);
      LookUpNone(Shown(d.peers), name);
      if k < |d.peers| {
        NoteAllLooksUp(peers, before, name);
        LookUpAt(Shown(d.peers), k);
      }
    }
  }

  /** The version moves exactly when the shown levels do. */
  lemma ChangedExact(peers: seq<Peer>, levels: seq<Level>)
    requires Distinct(Shown(peers))
    ensures !Publish(peers, levels).changed ==> Shown(Publish(peers, levels).peers) == Shown(peers)
    ensures Distinct(levels) && Publish(peers, levels).changed ==> Shown(Publish(peers, levels).peers) != Shown(peers)
  {
    hide Retain, LookUp, NoteAll;
    var d := NoteAll(peers, levels);
    if !d.changed {
      UnchangedDraft(peers, levels);
      if |Retain(d.peers)| == |d.peers| {
        RetainAll(d.peers);
      }
    } else if Distinct(levels) {
      var name := ChangedDraft(peers, levels);
      PublishShows(peers, levels, name);
    }
  }
}

/**
 Readers and writers interleaved. A writer changes the data in one step and
 moves the version in a later one; any number of writers may be in between.
 A reader loads the version, then our own level, then copies the peers.
 */
module LevelRuns {
  import opened Levels

  /** `owed`: writers that changed something and have yet to move the version. */
  datatype Board = Board(own: real, peers: seq<Peer>, version: nat, owed: nat)

  datatype Step = SwapOwn(level: real) | WritePeers(levels: seq<Level>) | Bump

  const SILENT := Board(0.0, [], 0, 0)

  function Apply(b: Board, step: Step): Board {
    match step
    case SwapOwn(level) =>
      b.(own := level, owed := b.owed + if b.own != level then 1 else 0)
    case WritePeers(levels) =>
      var d := Publish(b.peers, levels);
      b.(peers := d.peers, owed := b.owed + if d.changed then 1 else 0)
    case Bump =>
      if b.owed == 0 then b else b.(version := b.version + 1, owed := b.owed - 1)
  }

  /** Every board of a run, the first included. */
  function Boards(steps: seq<Step>): (r: seq<Board>)
    ensures |r| == |steps| + 1 && r[0] == SILENT
  {
    if steps == [] then [SILENT]
    else
      var before := Boards(steps[..|steps| - 1]);
      before + [Apply(before[|before| - 1], steps[|steps| - 1])]
  }

  predicate SameData(a: Board, b: Board) {
    a.own == b.own && Shown(a.peers) == Shown(b.peers)
  }

  /** How often the data changed between two instants. */
  function Changes(boards: seq<Board>, from: nat, to: nat): nat
    requires from <= to < |boards|
  {
    if from == to then 0
    else Changes(boards, from, to - 1) + if SameData(boards[to - 1], boards[to]) then 0 else 1
  }

  /** Publications name each sender once, as the engine's sender map does. */
  ghost predicate NamedOnce(steps: seq<Step>) {
    forall i :: 0 <= i < |steps| && steps[i].WritePeers? ==> Distinct(steps[i].levels)
  }

  lemma {:induction false} BoardsStep(steps: seq<Step>, t: nat)
    requires t < |steps|
    ensures Boards(steps)[t + 1] == Apply(Boards(steps)[t], steps[t])
  {
    if t < |steps| - 1 {
      BoardsStep(steps[..|steps| - 1], t);
    }
  }

  lemma {:induction false} PeersDistinct(steps: seq<Step>, t: nat)
    requires t <= |steps|
    ensures Distinct(Shown(Boards(steps)[t].peers))
  {
    hide Boards, Publish;
    if t > 0 {
      PeersDistinct(steps, t - 1);
      BoardsStep(steps, t - 1);
      if steps[t - 1].WritePeers? {
        PublishShows(Boards(steps)[t - 1].peers, steps[t - 1].levels, "");
      }
    }
  }

  /** Version plus bumps owed never falls, and grows whenever the data changes: by exactly one when names are distinct. */
  lemma BoardStep(b: Board, step: Step)
    requires Distinct(Shown(b.peers))
    ensures var a := Apply(b, step);
            var grown := a.version + a.owed - b.version - b.owed;
            && 0 <= grown <= 1 && b.version <= a.version
            && (!SameData(b, a) ==> grown == 1)
            && ((step.WritePeers? ==> Distinct(step.levels)) && SameData(b, a) ==> grown == 0)
  {
    hide Publish, Shown;
    if step.WritePeers? {
      ChangedExact(b.peers, step.levels);
    }
  }

  lemma {:induction false} ChangesCounted(steps: seq<Step>, from: nat, to: nat)
    requires from <= to <= |steps|
    ensures var (a, b) := (Boards(steps)[from], Boards(steps)[to]);
            && a.version <= b.version
            && a.version + a.owed + Changes(Boards(steps), from, to) <= b.version + b.owed
            && (NamedOnce(steps) ==> a.version + a.owed + Changes(Boards(steps), from, to) == b.version + b.owed)
  {
    hide Boards, Apply, SameData;
    if from < to {
      ChangesCounted(steps, from, to - 1);
      PeersDistinct(steps, to - 1);
      BoardsStep(steps, to - 1);
      BoardStep(Boards(steps)[to - 1], steps[to - 1]);
    }
  }

  lemma {:induction false} NoChanges(boards: seq<Board>, from: nat, mid: nat, to: nat)
    requires from <= mid <= to < |boards|
    requires Changes(boards, from, to) == 0
    ensures SameData(boards[mid], boards[to])
  {
    if mid < to {
      NoChanges(boards, from, mid, to - 1);
    }
  }

  /** What a reader holds after loading the version at `t1`, our own level at `t2` and the peers at `t3`. */
  datatype Copy = Copy(version: nat, own: real, peers: seq<Level>)

  function Read(boards: seq<Board>, t1: nat, t2: nat, t3: nat): Copy
    requires t1 <= t2 <= t3 < |boards|
  {
    Copy(boards[t1].version, boards[t2].own, Shown(boards[t3].peers))
  }

  /** No missed update: an unmoved version with no writer mid-operation means the copy is current. */
  lemma NoMissedUpdate(steps: seq<Step>, t1: nat, t2: nat, t3: nat, now: nat)
    requires t1 <= t2 <= t3 <= now <= |steps|
    requires Boards(steps)[now].owed == 0 && Boards(steps)[now].version == Boards(steps)[t1].version
    ensures var (b, c) := (Boards(steps)[now], Read(Boards(steps), t1, t2, t3));
            c == Copy(b.version, b.own, Shown(b.peers))
  {
    hide Boards, Shown;
    ChangesCounted(steps, t1, now);
    NoChanges(Boards(steps), t1, t2, now);
    NoChanges(Boards(steps), t1, t3, now);
  }

  /** Between two instants with no writer mid-operation the version moves by the number of changes: silence leaves it alone. */
  lemma VersionCountsChanges(steps: seq<Step>, from: nat, to: nat)
    requires from <= to <= |steps| && NamedOnce(steps)
    requires Boards(steps)[from].owed == 0 && Boards(steps)[to].owed == 0
    ensures Boards(steps)[to].version == Boards(steps)[from].version + Changes(Boards(steps), from, to)
  {
    ChangesCounted(steps, from, to);
  }
}
