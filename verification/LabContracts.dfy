/** Lab definitions and their validation for run eligibility. */
module LabContracts {
  import opened Prelude

  datatype AssetType = COMPRESSOR | TANK | ISOLATION_VALVE | CONTROL_VALVE | DEMAND

  datatype PortName = A | B | OUT | IN

  function PortsOf(t: AssetType): set<PortName> {
    match t
    case COMPRESSOR => {OUT}
    case DEMAND => {IN}
    case _ => {A, B}
  }

  datatype PortRef = PortRef(assetId: Uuid, port: PortName)

  datatype Asset = Asset(
    assetId: Uuid,
    kind: AssetType,
    position: (real, real, real),
    rotationY: real,
    parameters: map<string, real>)

  datatype Pipe = Pipe(
    pipeId: Uuid,
    fromPort: PortRef,
    toPort: PortRef,
    conductance: real,
    waypoints: seq<(real, real, real)>)

  /** A pressure sensor watches a port, a flow sensor a pipe. */
  datatype Target = AtPort(port: PortRef) | AtPipe(pipeId: Uuid)

  datatype Sensor = Sensor(sensorId: Uuid, target: Target, noiseStd: real, alarmLow: Option<real>,
                           alarmHigh: Option<real>)

  datatype LabDefinition = LabDefinition(
    schemaVersion: string,
    labId: Uuid,
    revision: int,
    name: string,
    assets: seq<Asset>,
    pipes: seq<Pipe>,
    sensors: seq<Sensor>,
    sceneRevision: string)

  datatype ErrorCode =
    | EMPTY_LAB
    | DUPLICATE_ASSET_ID
    | DUPLICATE_PIPE_ID
    | INVALID_PORT_REF
    | SELF_LOOP_PIPE
    | DUPLICATE_PIPE
    | DUPLICATE_SENSOR_ID
    | INVALID_SENSOR_TARGET

  // ---------------------------------------------------------------- what makes a lab eligible

  predicate DistinctAssets(assets: seq<Asset>) {
    forall i, j :: 0 <= i < j < |assets| ==> assets[i].assetId != assets[j].assetId
  }

  predicate DistinctPipes(pipes: seq<Pipe>) {
    forall i, j :: 0 <= i < j < |pipes| ==> pipes[i].pipeId != pipes[j].pipeId
  }

  predicate DistinctSensors(sensors: seq<Sensor>) {
    forall i, j :: 0 <= i < j < |sensors| ==> sensors[i].sensorId != sensors[j].sensorId
  }

  predicate PortExists(assets: seq<Asset>, p: PortRef) {
    exists a :: a in assets && a.assetId == p.assetId && p.port in PortsOf(a.kind)
  }

  /** The two ends of a pipe, in no order. */
  function EndsOf(p: Pipe): set<PortRef> {
    {p.fromPort, p.toPort}
  }

  predicate PipeSound(assets: seq<Asset>, p: Pipe) {
    PortExists(assets, p.fromPort) && PortExists(assets, p.toPort) && p.fromPort != p.toPort
  }

  /** No two pipes connect the same two ports. */
  predicate DistinctConnections(pipes: seq<Pipe>) {
    forall i, j :: 0 <= i < j < |pipes| ==> EndsOf(pipes[i]) != EndsOf(pipes[j])
  }

  predicate TargetExists(assets: seq<Asset>, pipes: seq<Pipe>, t: Target) {
    match t
    case AtPort(p) => PortExists(assets, p)
    case AtPipe(id) => exists p :: p in pipes && p.pipeId == id
  }

  /** Everything eligibility asks of assets, pipes and sensor targets. */
  predicate Sound(lab: LabDefinition) {
    && lab.assets != []
    && DistinctAssets(lab.assets)
    && DistinctPipes(lab.pipes)
    && (forall p :: p in lab.pipes ==> PipeSound(lab.assets, p))
    && DistinctConnections(lab.pipes)
    && (forall s :: s in lab.sensors ==> TargetExists(lab.assets, lab.pipes, s.target))
  }

  predicate Eligible(lab: LabDefinition) {
    Sound(lab) && DistinctSensors(lab.sensors)
  }

  // ---------------------------------------------------------------- what each error code means

  /** The asset an identifier names: the last one where identifiers repeat. */
  function Named(assets: seq<Asset>, id: Uuid): Option<Asset> {
    if assets == [] then None
    else if assets[|assets| - 1].assetId == id then Some(assets[|assets| - 1])
    else Named(assets[..|assets| - 1], id)
  }

  predicate PortResolves(assets: seq<Asset>, p: PortRef) {
    var a := Named(assets, p.assetId);
    a.Some? && p.port in PortsOf(a.value.kind)
  }

  predicate TargetResolves(assets: seq<Asset>, pipes: seq<Pipe>, t: Target) {
    match t
    case AtPort(p) => PortResolves(assets, p)
    case AtPipe(id) => exists p :: p in pipes && p.pipeId == id
  }

  /** Two pipes join the same ports; a pipe from a port to itself is another flaw. */
  predicate DoubledConnection(pipes: seq<Pipe>) {
    exists i, j :: 0 <= i < j < |pipes| && EndsOf(pipes[i]) == EndsOf(pipes[j]) && pipes[j].fromPort != pipes[j].toPort
  }

  predicate PipeFlaw(code: ErrorCode, assets: seq<Asset>, pipes: seq<Pipe>) {
    match code
    case DUPLICATE_PIPE_ID => !DistinctPipes(pipes)
    case INVALID_PORT_REF =>
      exists p :: p in pipes && !(PortResolves(assets, p.fromPort) && PortResolves(assets, p.toPort))
    case SELF_LOOP_PIPE => exists p :: p in pipes && p.fromPort == p.toPort
    case DUPLICATE_PIPE => DoubledConnection(pipes)
    case _ => false
  }

  predicate SensorFlaw(code: ErrorCode, assets: seq<Asset>, pipes: seq<Pipe>, sensors: seq<Sensor>) {
    match code
    case DUPLICATE_SENSOR_ID => !DistinctSensors(sensors)
    case INVALID_SENSOR_TARGET => exists s :: s in sensors && !TargetResolves(assets, pipes, s.target)
    case _ => false
  }

  /** The flaw an error code reports. */
  predicate Flaw(code: ErrorCode, lab: LabDefinition) {
    || (code == EMPTY_LAB && lab.assets == [])
    || (code == DUPLICATE_ASSET_ID && !DistinctAssets(lab.assets))
    || PipeFlaw(code, lab.assets, lab.pipes)
    || SensorFlaw(code, lab.assets, lab.pipes, lab.sensors)
  }

  lemma {:induction false} NamedIsIn(assets: seq<Asset>, id: Uuid)
    ensures var a := Named(assets, id);
            && (a.Some? ==> a.value in assets && a.value.assetId == id)
            && (a.None? ==> forall b :: b in assets ==> b.assetId != id)
  {
    if assets != [] {
      NamedIsIn(assets[..|assets| - 1], id);
      assert assets == assets[..|assets| - 1] + [assets[|assets| - 1]];
    }
  }

  lemma PortExistsResolved(assets: seq<Asset>, p: PortRef)
    requires DistinctAssets(assets)
    ensures PortResolves(assets, p) <==> PortExists(assets, p)
  {
    NamedIsIn(assets, p.assetId);
    forall a | a in assets && a.assetId == p.assetId
      ensures Some(a) == Named(assets, p.assetId)
    {
      var i :| 0 <= i < |assets| && assets[i] == a;
      var j :| 0 <= j < |assets| && assets[j] == Named(assets, p.assetId).value;
    }
  }

  predicate Flawless(lab: LabDefinition) {
    forall code :: !Flaw(code, lab)
  }

  lemma FlawlessPipes(lab: LabDefinition)
    requires DistinctAssets(lab.assets)
    ensures (forall code :: !PipeFlaw(code, lab.assets, lab.pipes)) <==>
            && DistinctPipes(lab.pipes)
            && (forall p :: p in lab.pipes ==> PipeSound(lab.assets, p))
            && DistinctConnections(lab.pipes)
  {
    forall p | p in lab.pipes
      ensures PortResolves(lab.assets, p.fromPort) <==> PortExists(lab.assets, p.fromPort)
      ensures PortResolves(lab.assets, p.toPort) <==> PortExists(lab.assets, p.toPort)
    {
      PortExistsResolved(lab.assets, p.fromPort);
      PortExistsResolved(lab.assets, p.toPort);
    }
    if forall code :: !PipeFlaw(code, lab.assets, lab.pipes) {
      assert !PipeFlaw(DUPLICATE_PIPE_ID, lab.assets, lab.pipes) && !PipeFlaw(INVALID_PORT_REF, lab.assets, lab.pipes);
      assert !PipeFlaw(SELF_LOOP_PIPE, lab.assets, lab.pipes) && !PipeFlaw(DUPLICATE_PIPE, lab.assets, lab.pipes);
      assert forall i :: 0 <= i < |lab.pipes| ==> lab.pipes[i] in lab.pipes;
    }
  }

  lemma FlawlessSensors(lab: LabDefinition)
    requires DistinctAssets(lab.assets)
    ensures (forall code :: !SensorFlaw(code, lab.assets, lab.pipes, lab.sensors)) <==>
            && DistinctSensors(lab.sensors)
            && (forall s :: s in lab.sensors ==> TargetExists(lab.assets, lab.pipes, s.target))
  {
    forall s | s in lab.sensors
      ensures TargetResolves(lab.assets, lab.pipes, s.target) <==> TargetExists(lab.assets, lab.pipes, s.target)
    {
      if s.target.AtPort? {
        PortExistsResolved(lab.assets, s.target.port);
      }
    }
    if forall code :: !SensorFlaw(code, lab.assets, lab.pipes, lab.sensors) {
      assert !SensorFlaw(DUPLICATE_SENSOR_ID, lab.assets, lab.pipes, lab.sensors);
      assert !SensorFlaw(INVALID_SENSOR_TARGET, lab.assets, lab.pipes, lab.sensors);
    }
  }

  /** A lab is eligible exactly when it has none of the flaws. */
  lemma EligibleExactly(lab: LabDefinition)
    ensures Eligible(lab) <==> Flawless(lab)
  {
    if Flawless(lab) {
      assert !Flaw(DUPLICATE_ASSET_ID, lab) && !Flaw(EMPTY_LAB, lab);
      assert forall code :: PipeFlaw(code, lab.assets, lab.pipes) ==> Flaw(code, lab);
      assert forall code :: SensorFlaw(code, lab.assets, lab.pipes, lab.sensors) ==> Flaw(code, lab);
    }
    if DistinctAssets(lab.assets) {
      FlawlessPipes(lab);
      FlawlessSensors(lab);
    }
  }

  // ---------------------------------------------------------------- the validation

  ghost predicate Maps(assets: seq<Asset>, assetMap: map<Uuid, Asset>) {
    forall id: Uuid :: Named(assets, id) == if id in assetMap then Some(assetMap[id]) else None
  }

  predicate PortKnown(assetMap: map<Uuid, Asset>, p: PortRef) {
    p.assetId in assetMap && p.port in PortsOf(assetMap[p.assetId].kind)
  }

  lemma NamedSnoc(assets: seq<Asset>, a: Asset)
    ensures forall id: Uuid :: Named(assets + [a], id) == if id == a.assetId then Some(a) else Named(assets, id)
  {
    assert (assets + [a])[..|assets|] == assets;
  }

  method CollectAssets(assets: seq<Asset>) returns (assetMap: map<Uuid, Asset>, errors: seq<ErrorCode>)
    ensures Maps(assets, assetMap)
    ensures forall code :: code in errors <==> code == DUPLICATE_ASSET_ID && !DistinctAssets(assets)
  {
    assetMap, errors := map[], [];
    for i := 0 to |assets|
      invariant Maps(assets[..i], assetMap)
      invariant forall code :: code in errors <==> code == DUPLICATE_ASSET_ID && !DistinctAssets(assets[..i])
    {
      var a := assets[i];
      assert assets[..i + 1] == assets[..i] + [a];
      NamedSnoc(assets[..i], a);
      NamedIsIn(assets[..i], a.assetId);
      if a.assetId in assetMap {
        errors := errors + [DUPLICATE_ASSET_ID];
        var j :| 0 <= j < i && assets[j] == assetMap[a.assetId];
        assert assets[..i + 1][j].assetId == assets[..i + 1][i].assetId;
      }
      assetMap := assetMap[a.assetId := a];
    }
    assert assets[..|assets|] == assets;
  }

  /** The checks of one pipe against those before it. */
  function PipeErrors(assetMap: map<Uuid, Asset>, pipeIds: set<Uuid>, connected: set<set<PortRef>>, p: Pipe)
    : seq<ErrorCode>
  {
    (if p.pipeId in pipeIds then [DUPLICATE_PIPE_ID] else [])
    + (if PortKnown(assetMap, p.fromPort) then [] else [INVALID_PORT_REF])
    + (if PortKnown(assetMap, p.toPort) then [] else [INVALID_PORT_REF])
    + (if p.fromPort == p.toPort then [SELF_LOOP_PIPE]
       else if EndsOf(p) in connected then [DUPLICATE_PIPE] else [])
  }

  lemma DistinctPipesSnoc(pipes: seq<Pipe>, p: Pipe)
    ensures DistinctPipes(pipes + [p]) <==> DistinctPipes(pipes) && forall q :: q in pipes ==> q.pipeId != p.pipeId
  {
    var all := pipes + [p];
    assert forall i :: 0 <= i < |pipes| ==> all[i] == pipes[i] && pipes[i] in pipes;
    assert all[|pipes|] == p;
  }

  lemma DoubledSnoc(pipes: seq<Pipe>, p: Pipe)
    ensures DoubledConnection(pipes + [p]) <==>
            DoubledConnection(pipes) || (p.fromPort != p.toPort && exists q :: q in pipes && EndsOf(q) == EndsOf(p))
  {
    var all := pipes + [p];
    assert forall i :: 0 <= i < |pipes| ==> all[i] == pipes[i] && pipes[i] in pipes;
    assert all[|pipes|] == p;
    if DoubledConnection(pipes) {
      var i, j :| 0 <= i < j < |pipes| && EndsOf(pipes[i]) == EndsOf(pipes[j]) && pipes[j].fromPort != pipes[j].toPort;
      assert EndsOf(all[i]) == EndsOf(all[j]);
    }
    if q :| q in pipes && EndsOf(q) == EndsOf(p) {
      var i :| 0 <= i < |pipes| && pipes[i] == q;
      assert EndsOf(all[i]) == EndsOf(all[|pipes|]);
    }
  }

  /** One more pipe adds exactly the flaws its checks report. */
  lemma PipeFlawSnoc(code: ErrorCode, assets: seq<Asset>, pipes: seq<Pipe>, p: Pipe, assetMap: map<Uuid, Asset>,
                     pipeIds: set<Uuid>, connected: set<set<PortRef>>)
    requires Maps(assets, assetMap)
    requires pipeIds == set q | q in pipes :: q.pipeId
    requires connected == set q | q in pipes :: EndsOf(q)
    ensures PipeFlaw(code, assets, pipes + [p]) <==>
            PipeFlaw(code, assets, pipes) || code in PipeErrors(assetMap, pipeIds, connected, p)
  {
    match code
    case DUPLICATE_PIPE_ID => DistinctPipesSnoc(pipes, p);
    case DUPLICATE_PIPE => DoubledSnoc(pipes, p);
    case INVALID_PORT_REF =>
      assert forall q :: q in pipes + [p] <==> q in pipes || q == p;
      assert PortKnown(assetMap, p.fromPort) == PortResolves(assets, p.fromPort);
      assert PortKnown(assetMap, p.toPort) == PortResolves(assets, p.toPort);
    case SELF_LOOP_PIPE => assert forall q :: q in pipes + [p] <==> q in pipes || q == p;
    case _ =>
  }

  method CheckPipes(ghost assets: seq<Asset>, assetMap: map<Uuid, Asset>, pipes: seq<Pipe>)
    returns (pipeIds: set<Uuid>, errors: seq<ErrorCode>)
    requires Maps(assets, assetMap)
    ensures pipeIds == set p | p in pipes :: p.pipeId
    ensures forall code :: code in errors <==> PipeFlaw(code, assets, pipes)
  {
    pipeIds, errors := {}, [];
    var connected: set<set<PortRef>> := {};
    for i := 0 to |pipes|
      invariant pipeIds == set p | p in pipes[..i] :: p.pipeId
      invariant connected == set p | p in pipes[..i] :: EndsOf(p)
      invariant forall code :: code in errors <==> PipeFlaw(code, assets, pipes[..i])
    {
      var p := pipes[i];
      assert pipes[..i + 1] == pipes[..i] + [p];
      forall code: ErrorCode
        ensures PipeFlaw(code, assets, pipes[..i + 1]) <==>
                PipeFlaw(code, assets, pipes[..i]) || code in PipeErrors(assetMap, pipeIds, connected, p)
      {
        PipeFlawSnoc(code, assets, pipes[..i], p, assetMap, pipeIds, connected);
      }
      errors := errors + PipeErrors(assetMap, pipeIds, connected, p);
      pipeIds, connected := pipeIds + {p.pipeId}, connected + {EndsOf(p)};
    }
    assert pipes[..|pipes|] == pipes;
  }

  predicate TargetKnown(assetMap: map<Uuid, Asset>, pipeIds: set<Uuid>, t: Target) {
    match t
    case AtPort(p) => PortKnown(assetMap, p)
    case AtPipe(id) => id in pipeIds
  }

  method CheckSensors(ghost assets: seq<Asset>, ghost pipes: seq<Pipe>, assetMap: map<Uuid, Asset>, pipeIds: set<Uuid>,
                      sensors: seq<Sensor>)
    returns (errors: seq<ErrorCode>)
    requires Maps(assets, assetMap) && pipeIds == set p | p in pipes :: p.pipeId
    ensures forall code :: code in errors <==> SensorFlaw(code, assets, pipes, sensors)
  {
    errors := [];
    var sensorIds: set<Uuid> := {};
    for i := 0 to |sensors|
      invariant sensorIds == set s | s in sensors[..i] :: s.sensorId
      invariant forall code :: code in errors <==> SensorFlaw(code, assets, pipes, sensors[..i])
    {
      var s := sensors[i];
      SensorFlawSnoc(assets, pipes, sensors[..i], s);
      assert sensors[..i + 1] == sensors[..i] + [s];
      if s.sensorId in sensorIds {
        errors := errors + [DUPLICATE_SENSOR_ID];
      }
      sensorIds := sensorIds + {s.sensorId};
      if !TargetKnown(assetMap, pipeIds, s.target) {
        errors := errors + [INVALID_SENSOR_TARGET];
      }
    }
    assert sensors[..|sensors|] == sensors;
  }

  lemma SensorFlawSnoc(assets: seq<Asset>, pipes: seq<Pipe>, sensors: seq<Sensor>, s: Sensor)
    ensures DistinctSensors(sensors + [s]) <==>
            DistinctSensors(sensors) && forall r :: r in sensors ==> r.sensorId != s.sensorId
    ensures SensorFlaw(INVALID_SENSOR_TARGET, assets, pipes, sensors + [s]) <==>
            SensorFlaw(INVALID_SENSOR_TARGET, assets, pipes, sensors) || !TargetResolves(assets, pipes, s.target)
  {
    var all := sensors + [s];
    assert forall i :: 0 <= i < |sensors| ==> all[i] == sensors[i] && sensors[i] in sensors;
    assert all[|sensors|] == s;
    assert forall r :: r in all <==> r in sensors || r == s;
  }

  /** The validation reports exactly the flaws of a lab that is not empty, and a lab passes exactly when
      it is eligible. */
  method ValidateLab(lab: LabDefinition) returns (runEligible: bool, errors: seq<ErrorCode>)
    ensures lab.assets == [] ==> errors == [EMPTY_LAB]
    ensures lab.assets != [] ==> forall code :: code in errors <==> Flaw(code, lab)
    ensures runEligible <==> errors == []
    ensures runEligible <==> Eligible(lab)
  {
    if lab.assets == [] {
      return false, [EMPTY_LAB];
    }
    var assetMap, assetErrors := CollectAssets(lab.assets);
    var pipeIds, pipeErrors := CheckPipes(lab.assets, assetMap, lab.pipes);
    var sensorErrors := CheckSensors(lab.assets, lab.pipes, assetMap, pipeIds, lab.sensors);
    errors := assetErrors + pipeErrors + sensorErrors;
    runEligible := errors == [];
    EligibleExactly(lab);
    if errors != [] {
      var code := errors[0];
      assert code in errors;
    }
  }
}
