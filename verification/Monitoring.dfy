// Baseline hashes of the host's critical components and their verification.
module Monitoring {
  import opened Basics

  datatype Component =
    | HypervisorConfig | BaseImage | SecurityPolicies
    | NetworkRules | ProcessWhitelist | MemoryLayout

  const CRITICAL_COMPONENTS: seq<Component> := [
    HypervisorConfig, BaseImage, SecurityPolicies, NetworkRules, ProcessWhitelist, MemoryLayout]

  lemma EveryComponentIsCritical(c: Component)
    ensures c in CRITICAL_COMPONENTS
  {
    match c {
      case HypervisorConfig => assert CRITICAL_COMPONENTS[0] == c;
      case BaseImage => assert CRITICAL_COMPONENTS[1] == c;
      case SecurityPolicies => assert CRITICAL_COMPONENTS[2] == c;
      case NetworkRules => assert CRITICAL_COMPONENTS[3] == c;
      case ProcessWhitelist => assert CRITICAL_COMPONENTS[4] == c;
      case MemoryLayout => assert CRITICAL_COMPONENTS[5] == c;
    }
  }

  /** A hex digest: none, the SHA-512 of a component's baseline term, or any other text. */
  datatype Digest = NoDigest | OfComponent(component: Component) | OtherText(text: string)

  type Hashes = map<Component, Digest>

  /** What every component hashes to now. */
  function CurrentHashes(): Hashes {
    map c: Component :: OfComponent(c)
  }

  datatype Check = Check(component: Component, expected: Digest, actual: Digest, passed: bool)

  function CheckOf(baseline: Hashes, component: Component, actual: Digest): Check {
    var expected := if component in baseline then baseline[component] else NoDigest;
    Check(component, expected, actual, expected == actual && expected != NoDigest)
  }

  /** The checks of the listed components that have a current hash, in order. */
  function Checks(baseline: Hashes, current: Hashes, components: seq<Component>): seq<Check> {
    if components == [] then []
    else
      var init := components[..|components| - 1];
      var last := components[|components| - 1];
      Checks(baseline, current, init) + if last in current then [CheckOf(baseline, last, current[last])] else []
  }

  /** The checks are those of the listed components that have a current hash, and of no other. */
  lemma {:induction false} ChecksAre(baseline: Hashes, current: Hashes, components: seq<Component>, check: Check)
    ensures check in Checks(baseline, current, components) <==>
      && check.component in components && check.component in current
      && check.actual == current[check.component]
      && check.expected == (if check.component in baseline then baseline[check.component] else NoDigest)
      && (check.passed <==> check.expected == check.actual && check.expected != NoDigest)
  {
    if components != [] {
      var init, last := components[..|components| - 1], components[|components| - 1];
      assert components == init + [last];
      ChecksAre(baseline, current, init, check);
    }
  }

  /** Every listed component with a current hash has a nonempty baseline equal to it. */
  ghost predicate Matches(baseline: Hashes, current: Hashes, components: seq<Component>) {
    forall c :: c in components && c in current ==> c in baseline && baseline[c] == current[c] && baseline[c] != NoDigest
  }

  /** The baseline a completed initialisation leaves behind. */
  predicate FullBaseline(baseline: Hashes) {
    forall c: Component :: c in baseline && baseline[c] == OfComponent(c)
  }

  lemma MatchesCurrentIffFull(baseline: Hashes)
    ensures Matches(baseline, CurrentHashes(), CRITICAL_COMPONENTS) <==> FullBaseline(baseline)
  {
    forall c: Component ensures c in CRITICAL_COMPONENTS { EveryComponentIsCritical(c); }
  }

  class IntegrityVerifier {
    var baseline: Hashes
    var history: seq<Check>

    constructor ()
      ensures baseline == map[] && history == []
    {
      baseline, history := map[], [];
    }

    method SetBaseline(component: Component, hash: Digest)
      modifies this`baseline
      ensures baseline == old(baseline)[component := hash]
    {
      baseline := baseline[component := hash];
    }

    method VerifyComponent(component: Component, actual: Digest) returns (check: Check)
      modifies this`history
      ensures check == CheckOf(baseline, component, actual)
      ensures check.passed <==> component in baseline && baseline[component] == actual && actual != NoDigest
      ensures history == old(history) + [check]
    {
      check := CheckOf(baseline, component, actual);
      history := history + [check];
    }

    /** Checks every critical component; passes iff all the checked ones match. */
    method VerifyAll(current: Hashes) returns (allPassed: bool, results: seq<Check>)
      modifies this`history
      ensures results == Checks(baseline, current, CRITICAL_COMPONENTS)
      ensures allPassed <==> Matches(baseline, current, CRITICAL_COMPONENTS)
      ensures history == old(history) + results
    {
      allPassed, results := true, [];
      for i := 0 to |CRITICAL_COMPONENTS|
        invariant results == Checks(baseline, current, CRITICAL_COMPONENTS[..i])
        invariant allPassed <==> Matches(baseline, current, CRITICAL_COMPONENTS[..i])
        invariant history == old(history) + results
      {
        var component := CRITICAL_COMPONENTS[i];
        assert CRITICAL_COMPONENTS[..i + 1] == CRITICAL_COMPONENTS[..i] + [component];
        assert CRITICAL_COMPONENTS[..i + 1][..i] == CRITICAL_COMPONENTS[..i];
        if component in current {
          var check := VerifyComponent(component, current[component]);
          results := results + [check];
          if !check.passed { allPassed := false; }
        }
      }
      assert CRITICAL_COMPONENTS[..|CRITICAL_COMPONENTS|] == CRITICAL_COMPONENTS;
    }
  }
}
