/**
  A registry of promises for answers from other network functions. Ids come from a 64-bit generator that
  several registries share, and are truncated to 32 bits where they key a registry.
 */
module Promises {
  const KEYS: int := 0x1_0000_0000

  /** A promise is known by its generated id: `added` to this registry, `pending` in it, or `fulfilled`, in order. */
  datatype Registry = Registry(generated: nat, added: set<nat>, pending: map<int, nat>, fulfilled: seq<nat>)

  /** `Elsewhere`: an id is generated for another registry. */
  datatype Event = Add | Elsewhere | Trigger(key: int)

  const EMPTY := Registry(0, {}, map[], [])

  function Generated(s: Registry): Registry {
    s.(generated := s.generated + 1)
  }

  /** A key that is taken keeps its promise, and the new one is dropped. */
  function Added(s: Registry): Registry {
    var id := s.generated + 1;
    Registry(id, s.added + {id}, if id % KEYS in s.pending then s.pending else s.pending[id % KEYS := id], s.fulfilled)
  }

  function Triggered(s: Registry, key: int): Registry {
    if key !in s.pending then s
    else s.(pending := s.pending - {key}, fulfilled := s.fulfilled + [s.pending[key]])
  }

  function Step(s: Registry, e: Event): Registry {
    match e
    case Add => Added(s)
    case Elsewhere => Generated(s)
    case Trigger(key) => Triggered(s, key)
  }

  /**
    A trigger sets the promise that is pending under the key, and takes it and no other out; an id generated for another
    registry changes nothing here.
   */
  lemma StepSets(s: Registry, key: int)
    ensures var s' := Step(s, Trigger(key));
            && s'.pending == s.pending - {key} && s'.added == s.added && s'.generated == s.generated
            && s'.fulfilled == s.fulfilled + (if key in s.pending then [s.pending[key]] else [])
    ensures Step(s, Elsewhere) == s.(generated := s.generated + 1)
  {
  }

  /** A promise is added under the low 32 bits of the next id, unless another one is pending under them. */
  lemma StepAdds(s: Registry)
    ensures var s' := Step(s, Add);
            var key := (s.generated + 1) % 0x1_0000_0000;
            && s'.generated == s.generated + 1 && s'.added == s.added + {s.generated + 1} && s'.fulfilled == s.fulfilled
            && key in s'.pending && (key !in s.pending ==> s'.pending[key] == s.generated + 1)
            && s'.pending - {key} == s.pending - {key} && (key in s.pending ==> s'.pending == s.pending)
  {
  }

  function Run(s: Registry, es: seq<Event>): Registry
    decreases |es|
  {
    if es == [] then s else Run(Step(s, es[0]), es[1..])
  }

  /** No promise is set twice, and a pending one has not been set. */
  ghost predicate AtMostOnce(s: Registry) {
    && (forall id <- s.added :: 0 < id <= s.generated)
    && (forall k <- s.pending :: s.pending[k] % KEYS == k && s.pending[k] in s.added)
    && (forall i :: 0 <= i < |s.fulfilled| ==> s.fulfilled[i] in s.added)
    && (forall i, j :: 0 <= i < j < |s.fulfilled| ==> s.fulfilled[i] != s.fulfilled[j])
    && (forall k <- s.pending, i :: 0 <= i < |s.fulfilled| ==> s.pending[k] != s.fulfilled[i])
  }

  lemma AddIsAtMostOnce(s: Registry)
    requires AtMostOnce(s)
    ensures AtMostOnce(Added(s))
  {
  }

  lemma TriggerIsAtMostOnce(s: Registry, key: int)
    requires AtMostOnce(s)
    ensures AtMostOnce(Triggered(s, key))
  {
  }

  lemma StepIsAtMostOnce(s: Registry, e: Event)
    requires AtMostOnce(s)
    ensures AtMostOnce(Step(s, e))
  {
    match e
    case Add => AddIsAtMostOnce(s);
    case Elsewhere =>
    case Trigger(key) => TriggerIsAtMostOnce(s, key);
  }

  /** Over any run each future is set at most once. */
  lemma {:induction false} RunIsAtMostOnce(s: Registry, es: seq<Event>)
    requires AtMostOnce(s)
    ensures AtMostOnce(Run(s, es))
    decreases |es|
  {
    if es == [] {
    } else {
      StepIsAtMostOnce(s, es[0]);
      RunIsAtMostOnce(Step(s, es[0]), es[1..]);
    }
  }

  /** The registry holds every promise that was added and has not been set. */
  ghost predicate HoldsAll(s: Registry) {
    forall id <- s.added :: id !in s.fulfilled ==> id % KEYS in s.pending && s.pending[id % KEYS] == id
  }

  /** Adding a promise keeps the registry complete exactly when the truncated id is not taken. */
  lemma AddHoldsAll(s: Registry)
    requires AtMostOnce(s) && HoldsAll(s)
    ensures HoldsAll(Added(s)) <==> (s.generated + 1) % KEYS !in s.pending
  {
    var s' := Added(s);
    var id := s.generated + 1;
    assert id in s'.added && id !in s.fulfilled;
    if id % KEYS in s.pending {
      assert s'.pending[id % KEYS] != id;
    }
  }

  lemma TriggerHoldsAll(s: Registry, key: int)
    requires AtMostOnce(s) && HoldsAll(s)
    ensures HoldsAll(Triggered(s, key))
  {
    var s' := Triggered(s, key);
    forall id | id in s'.added && id !in s'.fulfilled ensures id % KEYS in s'.pending && s'.pending[id % KEYS] == id {
      if key in s.pending {
        assert s'.fulfilled[|s.fulfilled|] == s.pending[key];
        assert forall x :: x in s.fulfilled ==> x in s'.fulfilled;
      }
    }
  }

  /** While ids are not truncated, the keys are the ids added and not yet triggered. */
  lemma KeysAreIds(s: Registry)
    requires AtMostOnce(s) && HoldsAll(s) && s.generated < KEYS
    ensures forall k :: k in s.pending <==> k in s.added && k !in s.fulfilled
  {
    forall k ensures k in s.pending <==> k in s.added && k !in s.fulfilled {
      if k in s.pending {
        assert s.pending[k] % KEYS == s.pending[k];
      }
      if k in s.added && k !in s.fulfilled {
        assert k % KEYS == k;
      }
    }
  }

  lemma StepHoldsAll(s: Registry, e: Event)
    requires AtMostOnce(s) && HoldsAll(s) && s.generated + (if e.Trigger? then 0 else 1) < KEYS
    ensures HoldsAll(Step(s, e))
  {
    match e
    case Add =>
      KeysAreIds(s);
      AddHoldsAll(s);
    case Elsewhere =>
    case Trigger(key) => TriggerHoldsAll(s, key);
  }

  function Generations(es: seq<Event>): nat {
    if es == [] then 0 else (if es[0].Trigger? then 0 else 1) + Generations(es[1..])
  }

  /** As long as the generator stays below 2^32 the registry holds exactly the ids added and not yet triggered. */
  lemma {:induction false} RunHoldsAll(s: Registry, es: seq<Event>)
    requires AtMostOnce(s) && HoldsAll(s) && s.generated + Generations(es) < KEYS
    ensures HoldsAll(Run(s, es)) && Run(s, es).generated == s.generated + Generations(es)
    ensures forall k :: k in Run(s, es).pending <==> k in Run(s, es).added && k !in Run(s, es).fulfilled
    decreases |es|
  {
    if es == [] {
      KeysAreIds(s);
    } else {
      StepIsAtMostOnce(s, es[0]);
      StepHoldsAll(s, es[0]);
      RunHoldsAll(Step(s, es[0]), es[1..]);
    }
  }

  class PromiseRegistry {
    var generated: nat
    var pending: map<int, nat>
    ghost var added: set<nat>
    ghost var fulfilled: seq<nat>

    ghost function State(): Registry
      reads this
    {
      Registry(generated, added, pending, fulfilled)
    }

    /** No promise is pending that has been set, and none has been set twice. */
    ghost predicate Valid()
      reads this
    {
      AtMostOnce(State())
    }

    constructor ()
      ensures Valid() && State() == EMPTY
    {
      generated, pending, added, fulfilled := 0, map[], {}, [];
    }

    /** An id for a promise of another registry. */
    method GeneratePromiseId()
      requires Valid()
      modifies this
      ensures Valid() && State() == Generated(old(State()))
    {
      generated := generated + 1;
    }

    method AddPromise() returns (key: int)
      requires Valid()
      modifies this
      ensures Valid() && State() == Added(old(State())) && key == generated % 0x1_0000_0000
      ensures generated == old(generated) + 1 && generated in added && fulfilled == old(fulfilled)
      ensures key in pending && (pending[key] == generated <==> key !in old(pending))
      ensures forall k <- old(pending) :: k in pending && pending[k] == old(pending)[k]
    {
      AddIsAtMostOnce(State());
      generated := generated + 1;
      added := added + {generated};
      key := generated % KEYS;
      if key !in pending {
        pending := pending[key := generated];
      }
    }

    /** The promise under this key is set, for the first and last time. */
    method TriggerProcessResponse(key: int)
      requires Valid()
      modifies this
      ensures Valid() && State() == Triggered(old(State()), key)
      ensures key !in pending
      ensures key in old(pending) ==> old(pending)[key] in fulfilled && old(pending)[key] !in old(fulfilled)
    {
      TriggerIsAtMostOnce(State(), key);
      if key in pending {
        fulfilled := fulfilled + [pending[key]];
        pending := pending - {key};
      }
    }

    method Handle(e: Event)
      requires Valid()
      modifies this
      ensures Valid() && State() == Step(old(State()), e)
    {
      match e
      case Add =>
        var _ := AddPromise();
      case Elsewhere => GeneratePromiseId();
      case Trigger(key) => TriggerProcessResponse(key);
    }

    /**
      Whatever is added and triggered, no promise is set twice; and while the generator stays below 2^32 a
      complete registry ends with exactly the promises that were added and not set.
     */
    method Process(es: seq<Event>)
      requires Valid()
      modifies this
      ensures Valid() && State() == Run(old(State()), es)
      ensures HoldsAll(old(State())) && old(generated) + Generations(es) < 0x1_0000_0000 ==>
                forall k :: k in pending <==> k in added && k !in fulfilled
    {
      ghost var s := State();
      if es == [] {
        if HoldsAll(s) && s.generated < KEYS {
          KeysAreIds(s);
        }
      } else {
        Handle(es[0]);
        if HoldsAll(s) && s.generated + Generations(es) < KEYS {
          StepHoldsAll(s, es[0]);
        }
        Process(es[1..]);
      }
    }
  }
}
