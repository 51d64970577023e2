/** HardGatePolicy.evaluate (apps/backend/app/domain/scoring.py) over any table of gate names. */
module HardGates {
  import opened ScoreBreakdowns
  import opened Text
  import opened Wrappers

  // The values of the HardGate enumeration.
  const SHIPPED_GATES: seq<string> := [
    "non_us_target", "no_international_import_activity", "out_of_scope_industry"
  ]

  datatype GateHit = GateHit(gate: string, reason: string, evidence: Evidence)

  // The members of an enumeration are distinct, and none of these is blank.
  ghost predicate IsGateTable(gates: seq<string>) {
    && (forall i, j | 0 <= i < j < |gates| :: gates[i] != gates[j])
    && forall i | 0 <= i < |gates| :: gates[i] != ""
  }

  lemma ShippedGatesAreTable()
    ensures IsGateTable(SHIPPED_GATES)
  {
    assert |SHIPPED_GATES[0]| == 13 && |SHIPPED_GATES[1]| == 32 && |SHIPPED_GATES[2]| == 21;
  }

  function MakeEvidence(claim: string, sources: seq<SourceReference>): Result<Evidence, DomainError> {
    if Strip(claim) == "" then Failure(BlankClaim)
    else if sources == [] then Failure(NoSources)
    else Success(Evidence(claim, sources))
  }

  function MakeGateHit(gate: string, reason: string, evidence: Evidence): Result<GateHit, DomainError> {
    if Strip(reason) == "" then Failure(BlankReason) else Success(GateHit(gate, reason, evidence))
  }

  function Marker(signal: string): string {
    Lower(Strip(Before(signal, ':')))
  }

  lemma {:induction false} StripAllWhite(s: string)
    requires forall c | c in s :: c in WHITE
    ensures Strip(s) == ""
  {
    if s != "" {
      assert s[0] in s;
      StripAllWhite(s[1..]);
      assert Leading(s[1..], WHITE) == |s| - 1 by {
        LeadingOfWhite(s[1..]);
      }
    }
  }

  lemma {:induction false} LeadingOfWhite(s: string)
    requires forall c | c in s :: c in WHITE
    ensures Leading(s, WHITE) == |s|
  {
    if s != "" {
      assert s[0] in s;
      LeadingOfWhite(s[1..]);
    }
  }

  lemma BlankIsWhite(s: string)
    requires Strip(s) == ""
    ensures forall c | c in s :: c in WHITE
  {
    forall i | 0 <= i < |s|
      ensures s[i] in WHITE
    {
      if s[i] !in WHITE {
        StripKeeps(s, [s[i]], WHITE, i);
      }
    }
  }

  // A blank signal has a blank marker.
  lemma BlankMarker(signal: string)
    requires Strip(signal) == ""
    ensures Marker(signal) == ""
  {
    var before := Before(signal, ':');
    BlankIsWhite(signal);
    assert forall i | 0 <= i < |before| :: before[i] == signal[i] && signal[i] in signal;
    StripAllWhite(before);
  }

  function HitsFrom(gates: seq<string>, signal: string, sources: seq<SourceReference>): seq<GateHit> {
    if Marker(signal) in gates then [GateHit(Marker(signal), signal, Evidence(signal, sources))] else []
  }

  // One hit for each signal whose marker is a gate, in the order of the signals.
  function HitsOf(gates: seq<string>, signals: seq<string>, sources: seq<SourceReference>): seq<GateHit> {
    if signals == [] then []
    else HitsOf(gates, signals[..|signals| - 1], sources) + HitsFrom(gates, signals[|signals| - 1], sources)
  }

  lemma GateSignalIsNotBlank(gates: seq<string>, k: nat, signal: string)
    requires IsGateTable(gates) && k < |gates| && Marker(signal) == gates[k]
    ensures Strip(signal) != ""
  {
    if Strip(signal) == "" {
      BlankMarker(signal);
    }
  }

  lemma OneMoreGate(gates: seq<string>, k: nat, signal: string, sources: seq<SourceReference>)
    requires IsGateTable(gates) && k < |gates|
    ensures HitsFrom(gates[..k + 1], signal, sources) ==
            HitsFrom(gates[..k], signal, sources) +
            (if Marker(signal) == gates[k] then [GateHit(gates[k], signal, Evidence(signal, sources))] else [])
  {
    assert gates[..k + 1] == gates[..k] + [gates[k]];
  }

  // The inner loop compares the marker with every gate in turn; it adds one hit at most.
  method CheckSignal(gates: seq<string>, signal: string, sources: seq<SourceReference>, before: seq<GateHit>)
    returns (hits: seq<GateHit>)
    requires IsGateTable(gates) && sources != []
    ensures hits == before + HitsFrom(gates, signal, sources)
  {
    hits := before;
    var marker := Marker(signal);
    for k := 0 to |gates|
      invariant hits == before + HitsFrom(gates[..k], signal, sources)
    {
      OneMoreGate(gates, k, signal, sources);
      if marker == gates[k] {
        GateSignalIsNotBlank(gates, k, signal);
        var evidence := MakeEvidence(signal, sources);
        var hit := MakeGateHit(gates[k], signal, evidence.value);
        hits := hits + [hit.value];
      }
    }
    assert gates[..|gates|] == gates;
  }

  // A gate needs evidence: without sources nothing fires. No constructor on the way can fail.
  method EvaluateGates(gates: seq<string>, signals: seq<string>, sources: seq<SourceReference>)
    returns (hits: seq<GateHit>)
    requires IsGateTable(gates)
    ensures hits == if sources == [] then [] else HitsOf(gates, signals, sources)
  {
    hits := [];
    if sources == [] {
      return;
    }
    for i := 0 to |signals|
      invariant hits == HitsOf(gates, signals[..i], sources)
    {
      assert signals[..i + 1][..i] == signals[..i];
      hits := CheckSignal(gates, signals[i], sources, hits);
    }
    assert signals[..|signals|] == signals;
  }

  // There is no hit exactly when no signal's marker is a gate; a hit names its gate and the signal it is from,
  // and carries all the sources; and no signal with such a marker goes without its hit.
  lemma {:induction false} HitsAre(gates: seq<string>, signals: seq<string>, sources: seq<SourceReference>)
    ensures HitsOf(gates, signals, sources) == [] <==> forall s | s in signals :: Marker(s) !in gates
    ensures forall h | h in HitsOf(gates, signals, sources) ::
              h.gate in gates && h.reason in signals && h.gate == Marker(h.reason) &&
              h.evidence == Evidence(h.reason, sources)
    ensures forall s | s in signals && Marker(s) in gates ::
              GateHit(Marker(s), s, Evidence(s, sources)) in HitsOf(gates, signals, sources)
  {
    if signals != [] {
      var front, last := signals[..|signals| - 1], signals[|signals| - 1];
      assert signals == front + [last];
      HitsAre(gates, front, sources);
    }
  }
}
