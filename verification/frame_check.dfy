/** `CheckHp` of Plugin.cs: every frame the local player is checked first, then each party
    member that is not the local player, all through the one name-keyed dictionary. */
module FrameCheck {

  import opened Wrappers
  import opened Debounce

  /** A character as the client reports it: name, home world id, current and maximum HP. */
  datatype Character = Character(name: string, world: nat, cur: nat, max: nat)

  /** The self-skip: a party entry whose name and home world both equal the local player's.
      With no local player nothing is skipped. */
  predicate IsLocalEntry(player: Option<Character>, m: Character)
  {
    player.Some? && m.name == player.value.name && m.world == player.value.world
  }

  function MemberSample(m: Character): Sample
  {
    Sample(m.name, m.cur, m.max, false)
  }

  /** The samples the party loop feeds to `CheckAndWarn`, in list order. */
  function PartySamples(player: Option<Character>, party: seq<Character>): (r: seq<Sample>)
    ensures |r| <= |party|
    ensures forall i :: 0 <= i < |r| ==> !r[i].isSelf
    ensures forall i :: 0 <= i < |r| ==> r[i].name in NamesOfParty(party)
    decreases |party|
  {
    if |party| == 0 then []
    else if IsLocalEntry(player, party[0]) then PartySamples(player, party[1..])
    else [MemberSample(party[0])] + PartySamples(player, party[1..])
  }

  function NamesOfParty(party: seq<Character>): set<string>
  {
    set i | 0 <= i < |party| :: party[i].name
  }

  /** Everything one frame checks: the local player (as self) and then the party. */
  function FrameSamples(player: Option<Character>, party: seq<Character>): (r: seq<Sample>)
    ensures player.Some? <==> |r| > 0 && r[0].isSelf
    ensures player.Some? ==> r[0] == Sample(player.value.name, player.value.cur, player.value.max, true)
    ensures forall i :: 0 < i < |r| ==> !r[i].isSelf
    ensures |r| <= |party| + 1
  {
    match player
    case None => PartySamples(player, party)
    case Some(p) => [Sample(p.name, p.cur, p.max, true)] + PartySamples(player, party)
  }

  /** The party loop commutes with splitting the list: together with `PartySamplesOfOne`
      this says members are visited in list order, each at most once. */
  lemma {:induction false} PartySamplesAppend(player: Option<Character>, p1: seq<Character>, p2: seq<Character>)
    ensures PartySamples(player, p1 + p2) == PartySamples(player, p1) + PartySamples(player, p2)
    decreases |p1|
  {
    if |p1| == 0 {
      assert p1 + p2 == p2;
    } else {
      assert (p1 + p2)[0] == p1[0];
      assert (p1 + p2)[1..] == p1[1..] + p2;
      PartySamplesAppend(player, p1[1..], p2);
    }
  }

  /** A single member is skipped exactly when it is the local player's own entry. */
  lemma PartySamplesOfOne(player: Option<Character>, m: Character)
    ensures PartySamples(player, [m]) == if IsLocalEntry(player, m) then [] else [MemberSample(m)]
  {
    assert [m][1..] == [];
  }

  /** Every member that is not the local player's entry is checked, as not-self. */
  lemma {:induction false} NonLocalMembersAreChecked(player: Option<Character>, party: seq<Character>, i: nat)
    requires i < |party| && !IsLocalEntry(player, party[i])
    ensures MemberSample(party[i]) in PartySamples(player, party)
    decreases i
  {
    if i > 0 {
      NonLocalMembersAreChecked(player, party[1..], i - 1);
    }
  }

  /** Dropping the first `i` members and then one more: the party loop's step. */
  lemma PartySamplesFrom(player: Option<Character>, party: seq<Character>, i: nat)
    requires i < |party|
    ensures PartySamples(player, party[i..])
            == PartySamples(player, [party[i]]) + PartySamples(player, party[i + 1..])
  {
    assert party[i..] == [party[i]] + party[i + 1..];
    PartySamplesAppend(player, [party[i]], party[i + 1..]);
  }

  /** What a frame ends with when `issued` has been emitted so far, the dictionary is `w` and
      `todo` is still to be checked. */
  function Resume(w: Warnings, issued: seq<Warning>, todo: seq<Sample>, a: Alerts): RunResult
  {
    var rest := Run(w, todo, a);
    RunResult(rest.warnings, issued + rest.issued)
  }

  /** `CheckHp`, one frame: the state after it and the warnings it issued, in order. */
  method CheckHp(w: Warnings, player: Option<Character>, party: seq<Character>, a: Alerts)
    returns (r: RunResult)
    ensures r == Run(w, FrameSamples(player, party), a)
  {
    var warnings := w;
    var issued: seq<Warning> := [];
    if player.Some? {
      var p := player.value;
      var self := Sample(p.name, p.cur, p.max, true);
      var step := CheckAndWarn(warnings, self, a);
      RunCons(warnings, self, PartySamples(player, party), a);
      warnings := step.warnings;
      if step.issued.Some? {
        issued := [step.issued.value];
      }
    }
    assert party[0..] == party;
    var i := 0;
    while i < |party|
      invariant 0 <= i <= |party|
      invariant Resume(warnings, issued, PartySamples(player, party[i..]), a) == Run(w, FrameSamples(player, party), a)
    {
      var m := party[i];
      var tail := PartySamples(player, party[i + 1..]);
      PartySamplesFrom(player, party, i);
      PartySamplesOfOne(player, m);
      if !IsLocalEntry(player, m) {
        var step := CheckAndWarn(warnings, MemberSample(m), a);
        var head := if step.issued.Some? then [step.issued.value] else [];
        RunCons(warnings, MemberSample(m), tail, a);
        AppendAssoc(issued, head, Run(step.warnings, tail, a).issued);
        warnings := step.warnings;
        issued := issued + head;
      }
      i := i + 1;
    }
    assert party[i..] == [];
    r := RunResult(warnings, issued);
  }

  lemma AppendAssoc<T>(x: seq<T>, y: seq<T>, z: seq<T>)
    ensures x + (y + z) == (x + y) + z
  {
  }

  /** The dictionary is keyed by name only: a party member who shares the local player's name
      but comes from another world is not skipped, yet reads and writes the local player's flag.
      When both drop low in the same frame only the local player is warned. */
  lemma NameTwinSharesTheFlag(w: Warnings, p: Character, twin: Character, a: Alerts)
    requires twin.name == p.name && twin.world != p.world
    requires IsLow(p.cur, p.max, a.thresholdPercent) && IsLow(twin.cur, twin.max, a.thresholdPercent)
    requires !Suppressed(w, p.name)
    ensures var r := Run(w, FrameSamples(Some(p), [twin]), a);
            |r.issued| == 1 && r.issued[0].isSelf
  {
    var self := Sample(p.name, p.cur, p.max, true);
    PartySamplesOfOne(Some(p), twin);
    var s := FrameSamples(Some(p), [twin]);
    assert s == [self, MemberSample(twin)];
    assert s[1..] == [MemberSample(twin)];
    assert s[1..][1..] == [];
  }
}
