/** Which workflow owns a channel (internal/config/config.go: the routing checks of validate, :250-255 and :352-366,
    Route, :369-392, and Groups, :403-415). */
module Routing {

  type Id = nat

  datatype Kind = Open | Private | Group | Direct | OtherKind

  datatype Workflow = Workflow(
    endpoint: Id, included: seq<Id>, excluded: seq<Id>, directs: bool, privates: bool, groups: bool)

  datatype Owner = Nobody | Owned(index: nat) | Ambiguous

  // --- validation ---

  predicate Compatible(w: Workflow, v: Workflow) {
    w.endpoint == v.endpoint ==>
      && !(w.directs && v.directs)
      && !(w.included == [] && v.included == [])
      && forall id :: id in w.included && id in v.included ==> id in w.excluded || id in v.excluded
  }

  ghost predicate Valid(ws: seq<Workflow>) {
    forall i, j :: 0 <= i < j < |ws| ==> Compatible(ws[i], ws[j])
  }

  /** The routing checks, in the order validate makes them. */
  method Validate(ws: seq<Workflow>) returns (ok: bool)
    ensures ok == Valid(ws)
  {
    var directs: set<Id> := {};
    for i := 0 to |ws|
      invariant forall e :: e in directs <==> exists j :: 0 <= j < i && ws[j].directs && ws[j].endpoint == e
      invariant forall j, k :: 0 <= j < k < i && ws[j].endpoint == ws[k].endpoint ==> !(ws[j].directs && ws[k].directs)
    {
      if ws[i].directs {
        if ws[i].endpoint in directs {
          return false;
        }
        directs := directs + {ws[i].endpoint};
      }
    }
    for i := 0 to |ws|
      invariant forall j, k :: 0 <= j < i && j < k < |ws| ==> Compatible(ws[j], ws[k])
    {
      for k := i + 1 to |ws|
        invariant forall l :: i < l < k ==> Compatible(ws[i], ws[l])
      {
        var other := ws[k];
        if ws[i].endpoint == other.endpoint {
          if ws[i].included == [] && other.included == [] {
            return false;
          }
          for n := 0 to |ws[i].included|
            invariant forall id :: id in ws[i].included[..n] && id in other.included ==>
                      id in ws[i].excluded || id in other.excluded
          {
            var id := ws[i].included[n];
            if id in other.included && id !in ws[i].excluded && id !in other.excluded {
              return false;
            }
          }
        }
      }
    }
    return true;
  }

  // --- routing ---

  predicate Specialized(ws: seq<Workflow>, channel: Id) {
    exists w :: w in ws && channel in w.included
  }

  predicate Allowed(w: Workflow, kind: Kind) {
    kind.Open? || (kind.Private? && w.privates) || (kind.Group? && w.groups) || (kind.Direct? && w.directs)
  }

  /** The workflow takes the channel: it admits the kind, and unless the channel is direct a workflow that names
      channels takes those and a generic one what none names, each without its exclusions. */
  ghost predicate Takes(ws: seq<Workflow>, w: Workflow, channel: Id, kind: Kind) {
    && (match kind
        case Open => true
        case Private => w.privates
        case Group => w.groups
        case Direct => w.directs
        case OtherKind => false)
    && (kind != Direct ==>
          && channel !in w.excluded
          && (w.included != [] ==> channel in w.included)
          && (w.included == [] ==> forall v :: v in ws ==> channel !in v.included))
  }

  /** Route finds the one workflow that takes the channel, and is ambiguous exactly when several do. */
  method Route(ws: seq<Workflow>, channel: Id, kind: Kind) returns (owner: Owner)
    ensures owner.Nobody? <==> forall i :: 0 <= i < |ws| ==> !Takes(ws, ws[i], channel, kind)
    ensures owner.Owned? ==>
              owner.index < |ws| &&
                  forall i :: 0 <= i < |ws| ==> (Takes(ws, ws[i], channel, kind) <==> i == owner.index)
    ensures owner.Ambiguous? <==> IsAmbiguous(ws, channel, kind)
  {
    var specialized := false;
    for i := 0 to |ws|
      invariant specialized <==> Specialized(ws[..i], channel)
    {
      assert ws[..i + 1] == ws[..i] + [ws[i]];
      if channel in ws[i].included {
        assert ws[i] in ws[..i + 1];
        specialized := true;
      }
    }
    assert ws[..|ws|] == ws;
    owner := Nobody;
    for i := 0 to |ws|
      invariant owner.Nobody? ==> forall j :: 0 <= j < i ==> !Takes(ws, ws[j], channel, kind)
      invariant owner.Owned? ==>
                owner.index < i && forall j :: 0 <= j < i ==> (Takes(ws, ws[j], channel, kind) <==> j == owner.index)
      invariant !owner.Ambiguous?
    {
      var w := ws[i];
      if !Allowed(w, kind) {
        continue;
      }
      if !kind.Direct? &&
          (channel in w.excluded || (w.included != [] && channel !in w.included) || (w.included == [] && specialized)) {
        continue;
      }
      assert Takes(ws, w, channel, kind);
      if owner.Owned? {
        assert Takes(ws, ws[owner.index], channel, kind);
        return Ambiguous;
      }
      owner := Owned(i);
    }
    assert owner.Owned? ==> Takes(ws, ws[owner.index], channel, kind);
  }

  ghost predicate IsAmbiguous(ws: seq<Workflow>, channel: Id, kind: Kind) {
    exists i, j :: 0 <= i < j < |ws| && Takes(ws, ws[i], channel, kind) && Takes(ws, ws[j], channel, kind)
  }

  // --- groups ---

  /** The workflows of one connection, in order. */
  function InGroup(ws: seq<Workflow>, endpoint: Id): seq<Workflow> {
    if ws == [] then []
    else
      InGroup(ws[..|ws| - 1], endpoint) + if ws[|ws| - 1].endpoint == endpoint then [ws[|ws| - 1]] else []
  }

  lemma InGroupStep(ws: seq<Workflow>, i: nat)
    requires i < |ws|
    ensures forall e :: InGroup(ws[..i + 1], e) == InGroup(ws[..i], e) + if ws[i].endpoint == e then [ws[i]] else []
  {
    assert ws[..i + 1][..i] == ws[..i];
  }

  method Groups(ws: seq<Workflow>) returns (groups: map<Id, seq<Workflow>>)
    ensures forall e :: e in groups <==> exists w :: w in ws && w.endpoint == e
    ensures forall e :: e in groups ==> groups[e] == InGroup(ws, e)
  {
    groups := map[];
    for i := 0 to |ws|
      invariant forall e :: e in groups <==> exists w :: w in ws[..i] && w.endpoint == e
      invariant forall e :: e in groups ==> groups[e] == InGroup(ws[..i], e)
      invariant forall e :: e !in groups ==> InGroup(ws[..i], e) == []
    {
      assert ws[..i + 1][..i] == ws[..i] && ws[..i + 1] == ws[..i] + [ws[i]];
      assert ws[i] in ws[..i + 1];
      hide InGroup;
      InGroupStep(ws, i);
      var group := if ws[i].endpoint in groups then groups[ws[i].endpoint] else [];
      groups := groups[ws[i].endpoint := group + [ws[i]]];
    }
    assert ws[..|ws|] == ws;
  }

  /** Two workflows of a group stand in the same order in the configuration. */
  lemma {:induction false} GroupOrder(ws: seq<Workflow>, e: Id, a: nat, b: nat) returns (i: nat, j: nat)
    requires a < b < |InGroup(ws, e)|
    ensures i < j < |ws| && ws[i] == InGroup(ws, e)[a] && ws[j] == InGroup(ws, e)[b]
    ensures ws[i].endpoint == ws[j].endpoint == e
  {
    var front := ws[..|ws| - 1];
    if b < |InGroup(front, e)| {
      i, j := GroupOrder(front, e, a, b);
    } else {
      j := |ws| - 1;
      i := GroupMember(front, e, a);
    }
  }

  lemma {:induction false} GroupMember(ws: seq<Workflow>, e: Id, a: nat) returns (i: nat)
    requires a < |InGroup(ws, e)|
    ensures i < |ws| && ws[i] == InGroup(ws, e)[a] && ws[i].endpoint == e
  {
    var front := ws[..|ws| - 1];
    if a < |InGroup(front, e)| {
      i := GroupMember(front, e, a);
    } else {
      i := |ws| - 1;
    }
  }

  /** Conversely, the configuration's order is kept within the group. */
  lemma {:induction false} GroupContains(ws: seq<Workflow>, i: nat, j: nat) returns (a: nat, b: nat)
    requires i < j < |ws| && ws[i].endpoint == ws[j].endpoint
    ensures var group := InGroup(ws, ws[i].endpoint);
            a < b < |group| && group[a] == ws[i] && group[b] == ws[j]
  {
    var front := ws[..|ws| - 1];
    if j < |ws| - 1 {
      a, b := GroupContains(front, i, j);
    } else {
      b := |InGroup(front, ws[i].endpoint)|;
      a := GroupIndex(front, i);
    }
  }

  lemma {:induction false} GroupIndex(ws: seq<Workflow>, i: nat) returns (a: nat)
    requires i < |ws|
    ensures a < |InGroup(ws, ws[i].endpoint)| && InGroup(ws, ws[i].endpoint)[a] == ws[i]
  {
    var front := ws[..|ws| - 1];
    if i < |ws| - 1 {
      a := GroupIndex(front, i);
    } else {
      a := |InGroup(front, ws[i].endpoint)|;
    }
  }

  // --- unambiguous exactly when valid ---

  /** Several workflows of one connection would take the channel. */
  ghost predicate Contested(ws: seq<Workflow>, e: Id, channel: Id, kind: Kind) {
    IsAmbiguous(InGroup(ws, e), channel, kind)
  }

  lemma ValidIsUnambiguous(ws: seq<Workflow>, e: Id, channel: Id, kind: Kind)
    requires Valid(ws)
    ensures !Contested(ws, e, channel, kind)
  {
    var group := InGroup(ws, e);
    forall a, b | 0 <= a < b < |group| ensures !(Takes(group, group[a], channel, kind) &&
        Takes(group, group[b], channel, kind)) {
      var i, j := GroupOrder(ws, e, a, b);
      assert Compatible(ws[i], ws[j]);
      assert group[a] in group && group[b] in group;
    }
  }

  /** A channel that no workflow names. */
  lemma {:induction false} FreshChannel(ws: seq<Workflow>) returns (channel: Id)
    ensures channel > 0 && forall w :: w in ws ==> forall c :: c >= channel ==> c !in w.included && c !in w.excluded
  {
    if ws == [] {
      channel := 1;
    } else {
      var before := FreshChannel(ws[..|ws| - 1]);
      var last := ws[|ws| - 1];
      var a := Above(last.included);
      var b := Above(last.excluded);
      channel := before + a + b;
      forall w | w in ws ensures forall c :: c >= channel ==> c !in w.included && c !in w.excluded {
        if w != last {
          assert w in ws[..|ws| - 1];
        }
      }
    }
  }

  lemma {:induction false} Above(ids: seq<Id>) returns (bound: nat)
    ensures forall c :: c in ids ==> c < bound
  {
    bound := 0;
    if ids != [] {
      assert ids == ids[..|ids| - 1] + [ids[|ids| - 1]];
      bound := Above(ids[..|ids| - 1]);
      bound := bound + ids[|ids| - 1] + 1;
    }
  }

  /** Two workflows that the checks refuse do compete for some channel of their connection. */
  lemma InvalidIsAmbiguous(ws: seq<Workflow>) returns (e: Id, channel: Id, kind: Kind)
    requires !Valid(ws)
    ensures exists w :: w in ws && w.endpoint == e
    ensures Contested(ws, e, channel, kind)
  {
    var i, j :| 0 <= i < j < |ws| && !Compatible(ws[i], ws[j]);
    e := ws[i].endpoint;
    var group := InGroup(ws, e);
    var a, b := GroupContains(ws, i, j);
    assert ws[i] in ws && group[a] in group && group[b] in group;
    channel := FreshChannel(group);
    if ws[i].directs && ws[j].directs {
      kind := Direct;
    } else {
      kind := Open;
      if !(ws[i].included == [] && ws[j].included == []) {
        channel :| channel in ws[i].included && channel in ws[j].included && channel !in ws[i].excluded &&
            channel !in ws[j].excluded;
      }
    }
    assert Takes(group, group[a], channel, kind) && Takes(group, group[b], channel, kind);
  }

  /** The checks accept exactly the configurations in which every channel of every connection has at most one owner. */
  lemma UnambiguousExactly(ws: seq<Workflow>)
    ensures Valid(ws) <==> forall e: Id, channel: Id, kind: Kind :: !Contested(ws, e, channel, kind)
  {
    if Valid(ws) {
      forall e: Id, channel: Id, kind: Kind ensures !Contested(ws, e, channel, kind) {
        ValidIsUnambiguous(ws, e, channel, kind);
      }
    } else {
      var e, channel, kind := InvalidIsAmbiguous(ws);
      assert Contested(ws, e, channel, kind);
    }
  }

  /** Without the grouping a valid configuration can be ambiguous. */
  lemma UngroupedIsAmbiguous(a: Workflow, b: Workflow, channel: Id)
    requires a.endpoint != b.endpoint && a.included == b.included == [] && channel !in a.excluded &&
              channel !in b.excluded
    ensures Valid([a, b]) && IsAmbiguous([a, b], channel, Open)
  {
    var ws := [a, b];
    assert Takes(ws, ws[0], channel, Open) && Takes(ws, ws[1], channel, Open);
  }
}
