// Which payload parts the older fairing base ties to itself with a joint
// when it is launched.  The parts come from ray hits (left out); the rule
// that picks among them is modelled: few parts are all jointed, otherwise
// only every second one.
module PayloadJoints {

  /** The number the rule compares with 2: half the hit parts, or all of them when there are at most 2. */
  function NrOfJoints(count: nat): nat {
    if count > 2 then count / 2 else count
  }

  /** Every part with a body is jointed exactly when at most five parts were hit. */
  lemma NrOfJointsSmall(count: nat)
    ensures NrOfJoints(count) <= 2 <==> count <= 5
  {
  }

  /** Indices below n that are multiples of stride and whose part has a rigid body, in increasing order. */
  function Jointed(hasBody: seq<bool>, n: nat, stride: nat): seq<nat>
    requires n <= |hasBody| && stride >= 1
  {
    if n == 0 then []
    else Jointed(hasBody, n - 1, stride) + (if (n - 1) % stride == 0 && hasBody[n - 1] then [n - 1] else [])
  }

  /** The joints the rule selects, as indices into the hit list. */
  function JointSelection(hasBody: seq<bool>): seq<nat> {
    Jointed(hasBody, |hasBody|, if NrOfJoints(|hasBody|) <= 2 then 1 else 2)
  }

  /** Jointed lists exactly the qualifying indices, each once and in increasing order. */
  lemma {:induction false} JointedExactly(hasBody: seq<bool>, n: nat, stride: nat)
    requires n <= |hasBody| && stride >= 1
    ensures forall k: nat :: k in Jointed(hasBody, n, stride) <==> k < n && k % stride == 0 && hasBody[k]
    ensures forall a, b :: 0 <= a < b < |Jointed(hasBody, n, stride)| ==>
      Jointed(hasBody, n, stride)[a] < Jointed(hasBody, n, stride)[b]
    ensures forall a :: 0 <= a < |Jointed(hasBody, n, stride)| ==> Jointed(hasBody, n, stride)[a] < n
  {
    if n > 0 {
      JointedExactly(hasBody, n - 1, stride);
      var prev := Jointed(hasBody, n - 1, stride);
      var last: seq<nat> := if (n - 1) % stride == 0 && hasBody[n - 1] then [n - 1] else [];
      assert Jointed(hasBody, n, stride) == prev + last;
      forall k: nat
        ensures k in prev + last <==> k < n && k % stride == 0 && hasBody[k]
      {
        assert k in prev + last <==> k in prev || k in last;
      }
    }
  }

  /**
   * The selection in createPayloadJoints: with at most five hit parts every
   * part with a rigid body gets a joint, otherwise only those at even
   * positions of the list.
   */
  lemma JointSelectionRule(hasBody: seq<bool>)
    ensures forall k: nat :: k in JointSelection(hasBody) <==>
      k < |hasBody| && hasBody[k] && (|hasBody| <= 5 || k % 2 == 0)
  {
    NrOfJointsSmall(|hasBody|);
    JointedExactly(hasBody, |hasBody|, if NrOfJoints(|hasBody|) <= 2 then 1 else 2);
  }

  /** One more step of the stride-2 walk: the odd index in between adds nothing. */
  lemma JointedStepTwo(hasBody: seq<bool>, i: nat)
    requires i % 2 == 0 && i + 2 <= |hasBody|
    ensures Jointed(hasBody, i + 2, 2) == Jointed(hasBody, i, 2) + (if hasBody[i] then [i] else [])
  {
    assert (i + 1) % 2 == 1;
  }

  /** The selection loops of createPayloadJoints. */
  method SelectPayloadJoints(hasBody: seq<bool>) returns (joints: seq<nat>)
    ensures joints == JointSelection(hasBody)
  {
    joints := [];
    var nrOfJoints := if |hasBody| > 2 then |hasBody| / 2 else |hasBody|;
    if nrOfJoints <= 2 {
      for i := 0 to |hasBody|
        invariant joints == Jointed(hasBody, i, 1)
      {
        if hasBody[i] {
          joints := joints + [i];
        }
      }
    } else {
      var i := 0;
      while i < |hasBody|
        invariant i % 2 == 0 && i <= |hasBody| + 1
        invariant i <= |hasBody| ==> joints == Jointed(hasBody, i, 2)
        invariant i > |hasBody| ==> joints == Jointed(hasBody, |hasBody|, 2)
        decreases |hasBody| - i
      {
        if i + 2 <= |hasBody| {
          JointedStepTwo(hasBody, i);
        } else {
          assert i + 1 == |hasBody|;
        }
        if hasBody[i] {
          joints := joints + [i];
        }
        i := i + 2;
      }
    }
  }
}
