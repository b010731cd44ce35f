/** Cloning a lab under fresh identifiers. */
module LabCatalog {
  import opened Prelude
  import opened LabContracts

  datatype CloneError = UnknownId | SelfLoopPipe | BadName

  /** A supply of identifiers that never repeats, as `uuid4` is taken to be. */
  ghost predicate NeverRepeats(supply: nat -> Uuid) {
    forall i, j :: supply(i) == supply(j) ==> i == j
  }

  ghost predicate FromSupply(supply: nat -> Uuid, id: Uuid) {
    exists k: nat :: supply(k) == id
  }

  ghost predicate Injective(names: map<Uuid, Uuid>) {
    forall a, b :: a in names && b in names && names[a] == names[b] ==> a == b
  }

  // ---------------------------------------------------------------- what a clone is

  function MovePort(names: map<Uuid, Uuid>, p: PortRef): PortRef
    requires p.assetId in names
  {
    PortRef(names[p.assetId], p.port)
  }

  predicate Knows(names: map<Uuid, Uuid>, t: Target) {
    match t
    case AtPort(p) => p.assetId in names
    case AtPipe(id) => id in names
  }

  function MoveTarget(names: map<Uuid, Uuid>, t: Target): Target
    requires Knows(names, t)
  {
    match t
    case AtPort(p) => AtPort(MovePort(names, p))
    case AtPipe(id) => AtPipe(names[id])
  }

  ghost predicate AssetCloned(names: map<Uuid, Uuid>, a: Asset, b: Asset) {
    a.assetId in names && b == a.(assetId := names[a.assetId])
  }

  ghost predicate PipeCloned(names: map<Uuid, Uuid>, p: Pipe, q: Pipe) {
    && p.pipeId in names && p.fromPort.assetId in names && p.toPort.assetId in names
    && q == p.(pipeId := names[p.pipeId], fromPort := MovePort(names, p.fromPort), toPort := MovePort(names, p.toPort))
  }

  ghost predicate SensorCloned(names: map<Uuid, Uuid>, s: Sensor, r: Sensor) {
    Knows(names, s.target) && r == s.(sensorId := r.sensorId, target := MoveTarget(names, s.target))
  }

  /** The clone is the template with every asset and pipe renamed by `names`, wherever it is mentioned,
      and nothing else changed. */
  ghost predicate IsClone(names: map<Uuid, Uuid>, t: LabDefinition, c: LabDefinition) {
    && c.schemaVersion == t.schemaVersion && c.sceneRevision == t.sceneRevision
    && |c.assets| == |t.assets| && |c.pipes| == |t.pipes| && |c.sensors| == |t.sensors|
    && (forall i :: 0 <= i < |t.assets| ==> AssetCloned(names, t.assets[i], c.assets[i]))
    && (forall i :: 0 <= i < |t.pipes| ==> PipeCloned(names, t.pipes[i], c.pipes[i]))
    && (forall i :: 0 <= i < |t.sensors| ==> SensorCloned(names, t.sensors[i], c.sensors[i]))
  }

  // ---------------------------------------------------------------- clones are as sound as their template

  lemma MovedSame(names: map<Uuid, Uuid>, p: PortRef, q: PortRef)
    requires Injective(names) && p.assetId in names && q.assetId in names
    ensures MovePort(names, p) == MovePort(names, q) <==> p == q
  {
  }

  lemma MovedEnds(names: map<Uuid, Uuid>, p: Pipe, p1: Pipe, q: Pipe, q1: Pipe)
    requires Injective(names) && PipeCloned(names, p, p1) && PipeCloned(names, q, q1)
    ensures EndsOf(p1) == EndsOf(q1) <==> EndsOf(p) == EndsOf(q)
  {
    MovedSame(names, p.fromPort, q.fromPort);
    MovedSame(names, p.fromPort, q.toPort);
    MovedSame(names, p.toPort, q.fromPort);
    MovedSame(names, p.toPort, q.toPort);
    PairsEqual(p.fromPort, p.toPort, q.fromPort, q.toPort);
    PairsEqual(p1.fromPort, p1.toPort, q1.fromPort, q1.toPort);
    MovedSame(names, p.fromPort, p.toPort);
    MovedSame(names, q.fromPort, q.toPort);
  }

  lemma PairsEqual<T>(a: T, b: T, c: T, d: T)
    ensures {a, b} == {c, d} <==> (a == c && b == d) || (a == d && b == c)
  {
    if {a, b} == {c, d} {
      assert a in {c, d} && b in {c, d} && c in {a, b} && d in {a, b};
    }
  }

  lemma MovedPortExists(names: map<Uuid, Uuid>, t: LabDefinition, c: LabDefinition, p: PortRef)
    requires Injective(names) && IsClone(names, t, c) && p.assetId in names
    ensures PortExists(c.assets, MovePort(names, p)) <==> PortExists(t.assets, p)
  {
    if a :| a in t.assets && a.assetId == p.assetId && p.port in PortsOf(a.kind) {
      var i :| 0 <= i < |t.assets| && t.assets[i] == a;
      assert AssetCloned(names, t.assets[i], c.assets[i]);
      var b := c.assets[i];
      assert b in c.assets;
    }
    if b :| b in c.assets && b.assetId == names[p.assetId] && p.port in PortsOf(b.kind) {
      var i :| 0 <= i < |c.assets| && c.assets[i] == b;
      assert AssetCloned(names, t.assets[i], c.assets[i]);
      var a := t.assets[i];
      assert a in t.assets;
    }
  }

  lemma MovedTargetExists(names: map<Uuid, Uuid>, t: LabDefinition, c: LabDefinition, target: Target)
    requires Injective(names) && IsClone(names, t, c) && Knows(names, target)
    ensures TargetExists(c.assets, c.pipes, MoveTarget(names, target)) <==> TargetExists(t.assets, t.pipes, target)
  {
    match target
    case AtPort(p) => MovedPortExists(names, t, c, p);
    case AtPipe(id) =>
      if p :| p in t.pipes && p.pipeId == id {
        var i :| 0 <= i < |t.pipes| && t.pipes[i] == p;
        assert PipeCloned(names, t.pipes[i], c.pipes[i]);
        var q := c.pipes[i];
        assert q in c.pipes;
      }
      if q :| q in c.pipes && q.pipeId == names[id] {
        var i :| 0 <= i < |c.pipes| && c.pipes[i] == q;
        assert PipeCloned(names, t.pipes[i], c.pipes[i]);
        var p := t.pipes[i];
        assert p in t.pipes;
      }
  }

  lemma CloneKeepsDistinct(names: map<Uuid, Uuid>, t: LabDefinition, c: LabDefinition)
    requires Injective(names) && IsClone(names, t, c)
    ensures DistinctAssets(c.assets) <==> DistinctAssets(t.assets)
    ensures DistinctPipes(c.pipes) <==> DistinctPipes(t.pipes)
    ensures DistinctConnections(c.pipes) <==> DistinctConnections(t.pipes)
  {
    forall i, j | 0 <= i < j < |t.assets|
      ensures c.assets[i].assetId == c.assets[j].assetId <==> t.assets[i].assetId == t.assets[j].assetId
    {
      assert AssetCloned(names, t.assets[i], c.assets[i]) && AssetCloned(names, t.assets[j], c.assets[j]);
    }
    forall i, j | 0 <= i < j < |t.pipes|
      ensures c.pipes[i].pipeId == c.pipes[j].pipeId <==> t.pipes[i].pipeId == t.pipes[j].pipeId
      ensures EndsOf(c.pipes[i]) == EndsOf(c.pipes[j]) <==> EndsOf(t.pipes[i]) == EndsOf(t.pipes[j])
    {
      MovedEnds(names, t.pipes[i], c.pipes[i], t.pipes[j], c.pipes[j]);
    }
  }

  lemma PipesSoundAlike(names: map<Uuid, Uuid>, t: LabDefinition, c: LabDefinition)
    requires Injective(names) && IsClone(names, t, c)
    ensures (forall p :: p in c.pipes ==> PipeSound(c.assets, p)) <==>
            (forall p :: p in t.pipes ==> PipeSound(t.assets, p))
  {
    forall i | 0 <= i < |t.pipes|
      ensures PipeSound(c.assets, c.pipes[i]) <==> PipeSound(t.assets, t.pipes[i])
    {
      assert PipeCloned(names, t.pipes[i], c.pipes[i]);
      MovedPortExists(names, t, c, t.pipes[i].fromPort);
      MovedPortExists(names, t, c, t.pipes[i].toPort);
      MovedSame(names, t.pipes[i].fromPort, t.pipes[i].toPort);
    }
    assert forall i :: 0 <= i < |t.pipes| ==> t.pipes[i] in t.pipes && c.pipes[i] in c.pipes;
  }

  lemma TargetsExistAlike(names: map<Uuid, Uuid>, t: LabDefinition, c: LabDefinition)
    requires Injective(names) && IsClone(names, t, c)
    ensures (forall s :: s in c.sensors ==> TargetExists(c.assets, c.pipes, s.target)) <==>
            (forall s :: s in t.sensors ==> TargetExists(t.assets, t.pipes, s.target))
  {
    forall i | 0 <= i < |t.sensors|
      ensures TargetExists(c.assets, c.pipes, c.sensors[i].target) <==>
              TargetExists(t.assets, t.pipes, t.sensors[i].target)
    {
      assert SensorCloned(names, t.sensors[i], c.sensors[i]);
      MovedTargetExists(names, t, c, t.sensors[i].target);
    }
    assert forall i :: 0 <= i < |t.sensors| ==> t.sensors[i] in t.sensors && c.sensors[i] in c.sensors;
  }

  /** A clone is sound exactly when its template is. */
  lemma CloneSoundExactly(names: map<Uuid, Uuid>, t: LabDefinition, c: LabDefinition)
    requires Injective(names) && IsClone(names, t, c)
    ensures Sound(c) <==> Sound(t)
  {
    CloneKeepsDistinct(names, t, c);
    PipesSoundAlike(names, t, c);
    TargetsExistAlike(names, t, c);
  }

  // ---------------------------------------------------------------- a clone can be better than its template

  /** A lab of one tank whose pressure sensors have the given identifiers. */
  function TankLab(tank: Uuid, sensors: seq<Uuid>): LabDefinition {
    LabDefinition("lab-definition-v1", 1, 1, "Tank", [Asset(tank, TANK, (0.0, 0.0, 0.0), 0.0, map[])], [],
                  seq(|sensors|, i requires 0 <= i < |sensors| =>
                        Sensor(sensors[i], AtPort(PortRef(tank, A)), 0.0, None, None)), "scene-v1")
  }

  lemma TankLabIsSound(tank: Uuid, sensors: seq<Uuid>)
    ensures Sound(TankLab(tank, sensors))
  {
    var lab := TankLab(tank, sensors);
    assert lab.assets[0] in lab.assets;
    assert PortExists(lab.assets, PortRef(tank, A));
  }

  /** A template that is not eligible, since two sensors share an identifier, with a clone that is. */
  lemma RepeatedSensorsAreCuredByCloning()
    ensures var t, c, names := TankLab(1, [7, 7]), TankLab(2, [8, 9]), map[1 := 2];
            !Eligible(t) && Injective(names) && IsClone(names, t, c) && Eligible(c)
  {
    var t, c, names := TankLab(1, [7, 7]), TankLab(2, [8, 9]), map[1 := 2];
    TankLabIsSound(1, [7, 7]);
    TankLabIsSound(2, [8, 9]);
    assert t.sensors[0].sensorId == t.sensors[1].sensorId;
  }

  // ---------------------------------------------------------------- cloning

  /** The identifiers of assets and pipes, which share one renaming. */
  function Ids(lab: LabDefinition): set<Uuid> {
    (set a | a in lab.assets :: a.assetId) + (set p | p in lab.pipes :: p.pipeId)
  }

  /** Every asset and pipe mentioned is among those identifiers. */
  predicate Closed(lab: LabDefinition) {
    && (forall p :: p in lab.pipes ==> p.fromPort.assetId in Ids(lab) && p.toPort.assetId in Ids(lab))
    && (forall s :: s in lab.sensors ==>
          match s.target
          case AtPort(p) => p.assetId in Ids(lab)
          case AtPipe(id) => id in Ids(lab))
  }

  predicate ValidName(name: string) {
    1 <= |name| <= 80
  }

  lemma SoundIsClosed(lab: LabDefinition)
    requires Sound(lab)
    ensures Closed(lab)
  {
    forall s | s in lab.sensors
      ensures match s.target
              case AtPort(p) => p.assetId in Ids(lab)
              case AtPipe(id) => id in Ids(lab)
    {
      assert TargetExists(lab.assets, lab.pipes, s.target);
    }
    forall p | p in lab.pipes
      ensures p.fromPort.assetId in Ids(lab) && p.toPort.assetId in Ids(lab)
    {
      assert PipeSound(lab.assets, p);
    }
  }

  /** Hands out a new identifier for each old one, the same one every time. */
  class IdMap {
    const supply: nat -> Uuid
    var names: map<Uuid, Uuid>
    var next: nat

    ghost predicate Valid()
      reads this
    {
      && NeverRepeats(supply)
      && Injective(names)
      && (forall id :: id in names ==> exists k: nat :: k < next && names[id] == supply(k))
    }

    constructor (supply: nat -> Uuid)
      requires NeverRepeats(supply)
      ensures Valid() && names == map[] && this.supply == supply
    {
      this.supply := supply;
      names, next := map[], 0;
    }

    method GetNewId(oldId: Uuid)
      requires Valid()
      modifies this
      ensures Valid() && names.Keys == old(names.Keys) + {oldId}
      ensures forall id :: id in old(names) ==> names[id] == old(names)[id]
    {
      if oldId !in names {
        ghost var before := names;
        forall id | id in names
          ensures names[id] != supply(next)
        {
          var k: nat :| k < next && names[id] == supply(k);
        }
        names := names[oldId := supply(next)];
        next := next + 1;
        forall id | id in names
          ensures exists k: nat :: k < next && names[id] == supply(k)
        {
          if id in before {
            var k: nat :| k < next - 1 && before[id] == supply(k);
            assert names[id] == supply(k);
          } else {
            var k: nat := next - 1;
            assert names[id] == supply(k);
          }
        }
      }
    }

    /** An identifier of its own, as every cloned sensor gets. */
    method Another() returns (id: Uuid)
      requires Valid()
      modifies this`next
      ensures Valid() && id == supply(old(next)) && next == old(next) + 1
    {
      id := supply(next);
      next := next + 1;
      forall x | x in names
        ensures exists k: nat :: k < next && names[x] == supply(k)
      {
        var k: nat :| k < next - 1 && names[x] == supply(k);
      }
    }
  }

  method CollectIds(template: LabDefinition, ids: IdMap)
    requires ids.Valid() && ids.names == map[]
    modifies ids
    ensures ids.Valid() && ids.names.Keys == Ids(template)
  {
    for i := 0 to |template.assets|
      invariant ids.Valid() && ids.names.Keys == set a | a in template.assets[..i] :: a.assetId
    {
      assert template.assets[..i + 1] == template.assets[..i] + [template.assets[i]];
      ids.GetNewId(template.assets[i].assetId);
    }
    assert template.assets[..|template.assets|] == template.assets;
    ghost var assetIds := ids.names.Keys;
    for i := 0 to |template.pipes|
      invariant ids.Valid() && ids.names.Keys == assetIds + set p | p in template.pipes[..i] :: p.pipeId
    {
      assert template.pipes[..i + 1] == template.pipes[..i] + [template.pipes[i]];
      ids.GetNewId(template.pipes[i].pipeId);
    }
    assert template.pipes[..|template.pipes|] == template.pipes;
  }

  lemma ClosedExactly(lab: LabDefinition, names: map<Uuid, Uuid>)
    requires names.Keys == Ids(lab)
    ensures Closed(lab) <==>
            && (forall p :: p in lab.pipes ==> p.fromPort.assetId in names && p.toPort.assetId in names)
            && (forall s :: s in lab.sensors ==> Knows(names, s.target))
    ensures forall a :: a in lab.assets ==> a.assetId in names
    ensures forall p :: p in lab.pipes ==> p.pipeId in names
  {
    assert forall id :: id in names <==> id in Ids(lab);
  }

  method CloneAssets(names: map<Uuid, Uuid>, assets: seq<Asset>) returns (clones: seq<Asset>)
    requires forall a :: a in assets ==> a.assetId in names
    ensures |clones| == |assets| && forall i :: 0 <= i < |assets| ==> AssetCloned(names, assets[i], clones[i])
  {
    clones := [];
    for i := 0 to |assets|
      invariant |clones| == i && forall j :: 0 <= j < i ==> AssetCloned(names, assets[j], clones[j])
    {
      assert assets[i] in assets;
      clones := clones + [assets[i].(assetId := names[assets[i].assetId])];
    }
  }

  method ClonePipes(names: map<Uuid, Uuid>, pipes: seq<Pipe>) returns (r: Result<seq<Pipe>, CloneError>)
    requires Injective(names) && forall p :: p in pipes ==> p.pipeId in names && p.fromPort != p.toPort
    ensures r.Ok? <==> forall p :: p in pipes ==> p.fromPort.assetId in names && p.toPort.assetId in names
    ensures r.Ok? ==> |r.value| == |pipes| && forall i :: 0 <= i < |pipes| ==> PipeCloned(names, pipes[i], r.value[i])
    ensures r.Err? ==> r.error == UnknownId
  {
    var clones: seq<Pipe> := [];
    for i := 0 to |pipes|
      invariant |clones| == i && forall j :: 0 <= j < i ==> PipeCloned(names, pipes[j], clones[j])
    {
      var p := pipes[i];
      assert p in pipes;
      if p.fromPort.assetId !in names || p.toPort.assetId !in names {
        return Err(UnknownId);
      }
      var clone := p.(pipeId := names[p.pipeId], fromPort := MovePort(names, p.fromPort),
                      toPort := MovePort(names, p.toPort));
      if clone.fromPort == clone.toPort {
        return Err(SelfLoopPipe);
      }
      clones := clones + [clone];
    }
    forall p | p in pipes
      ensures p.fromPort.assetId in names && p.toPort.assetId in names
    {
      var j :| 0 <= j < |pipes| && pipes[j] == p;
      assert PipeCloned(names, pipes[j], clones[j]);
    }
    r := Ok(clones);
  }

  method CloneSensors(ids: IdMap, sensors: seq<Sensor>) returns (r: Result<seq<Sensor>, CloneError>)
    requires ids.Valid()
    modifies ids`next
    ensures r.Ok? <==> forall s :: s in sensors ==> Knows(ids.names, s.target)
    ensures r.Ok? ==> |r.value| == |sensors| && DistinctSensors(r.value)
                      && forall i :: 0 <= i < |sensors| ==> SensorCloned(ids.names, sensors[i], r.value[i])
    ensures r.Ok? ==> forall s :: s in r.value ==> FromSupply(ids.supply, s.sensorId) && s.sensorId !in ids.names.Values
    ensures r.Err? ==> r.error == UnknownId
  {
    var clones: seq<Sensor> := [];
    ghost var start := ids.next;
    for i := 0 to |sensors|
      invariant ids.Valid() && ids.next == start + i && |clones| == i
      invariant forall j :: 0 <= j < i ==> clones[j].sensorId == ids.supply(start + j)
      invariant forall j :: 0 <= j < i ==> SensorCloned(ids.names, sensors[j], clones[j])
    {
      var s := sensors[i];
      assert s in sensors;
      if !Knows(ids.names, s.target) {
        return Err(UnknownId);
      }
      var id := ids.Another();
      clones := clones + [s.(sensorId := id, target := MoveTarget(ids.names, s.target))];
    }
    forall s | s in sensors
      ensures Knows(ids.names, s.target)
    {
      var j :| 0 <= j < |sensors| && sensors[j] == s;
      assert SensorCloned(ids.names, sensors[j], clones[j]);
    }
    forall s | s in clones
      ensures FromSupply(ids.supply, s.sensorId) && s.sensorId !in ids.names.Values
    {
      var j :| 0 <= j < |clones| && clones[j] == s;
      assert s.sensorId == ids.supply(start + j);
      forall id | id in ids.names
        ensures ids.names[id] != s.sensorId
      {
        assert exists k: nat :: k < start && ids.names[id] == ids.supply(k);
      }
    }
    r := Ok(clones);
  }

  /** Clones a lab. It fails exactly when the template mentions an asset or pipe it does not have, or the
      name is not allowed; the clone is the template renamed, and an eligible template has an eligible
      clone. No pipe of the template joins a port to itself, as pipes cannot be made that way. */
  method CloneLabDefinition(template: LabDefinition, newLabId: Uuid, newName: string, supply: nat -> Uuid)
    returns (r: Result<LabDefinition, CloneError>, ghost names: map<Uuid, Uuid>)
    requires NeverRepeats(supply)
    requires forall p :: p in template.pipes ==> p.fromPort != p.toPort
    ensures r.Ok? <==> Closed(template) && ValidName(newName)
    ensures r.Ok? ==> Injective(names) && names.Keys == Ids(template) && IsClone(names, template, r.value)
    ensures r.Ok? ==> forall id :: id in names ==> FromSupply(supply, names[id])
    ensures r.Ok? ==> forall s :: s in r.value.sensors ==>
              FromSupply(supply, s.sensorId) && s.sensorId !in names.Values
    ensures r.Ok? ==> r.value.labId == newLabId && r.value.name == newName && r.value.revision == 1
    ensures r.Ok? ==> (Eligible(r.value) <==> Sound(template))
    ensures Eligible(template) && ValidName(newName) ==> r.Ok?
  {
    if Sound(template) {
      SoundIsClosed(template);
    }
    var ids := new IdMap(supply);
    CollectIds(template, ids);
    names := ids.names;
    ClosedExactly(template, names);
    var assets := CloneAssets(ids.names, template.assets);
    var pipes := ClonePipes(ids.names, template.pipes);
    if pipes.Err? {
      return Err(pipes.error), names;
    }
    var sensors := CloneSensors(ids, template.sensors);
    if sensors.Err? {
      return Err(sensors.error), names;
    }
    if !ValidName(newName) {
      return Err(BadName), names;
    }
    var clone := LabDefinition(template.schemaVersion, newLabId, 1, newName, assets, pipes.value, sensors.value,
                               template.sceneRevision);
    assert IsClone(names, template, clone);
    CloneSoundExactly(names, template, clone);
    r := Ok(clone);
  }
}
