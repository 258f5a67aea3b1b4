/**
  Requests sent to the SMF for every PDU session of a UE, and what their answers do to the sessions. The
  answer to the request for a session is a parameter; nothing stands for one that does not come in time.
 */
module SmfFanout {
  import opened Wrappers
  import opened Decimal

  datatype UpState = Activated | Deactivated

  predicate Success(code: int) {
    code == 200 || code == 204
  }

  /** An answer read as a 32-bit code, and as an 8-bit one; zero where it cannot be read. */
  function Code32(answer: string): int {
    match Stoi(answer)
    case None => 0
    case Some(n) => n % 0x1_0000_0000
  }

  function Code8(answer: string): int {
    Code32(answer) % 0x100
  }

  function Ids(snapshot: seq<int>): set<int> {
    set id | id in snapshot
  }

  /** The sessions are listed in the order of the map they are kept in, each once. */
  ghost predicate Lists(snapshot: seq<int>, sessions: map<int, UpState>) {
    && Ids(snapshot) == sessions.Keys
    && (forall i, j :: 0 <= i < j < |snapshot| ==> snapshot[i] != snapshot[j])
  }

  ghost predicate AnySuccess(snapshot: seq<int>, answer: int -> Option<int>) {
    exists id <- snapshot :: answer(id).Some? && Success(answer(id).value)
  }

  class UeSessions {
    var sessions: map<int, UpState>

    constructor ()
      ensures sessions == map[]
    {
      sessions := map[];
    }

    method RemovePduSession(id: int)
      modifies this
      ensures sessions == old(sessions) - {id}
    {
      if id in sessions {
        sessions := sessions - {id};
      } else {
        assert sessions - {id} == sessions;
      }
    }

    method SetUpState(id: int, state: UpState)
      modifies this
      ensures sessions == if id in old(sessions) then old(sessions)[id := state] else old(sessions)
    {
      if id in sessions {
        sessions := sessions[id := state];
      }
    }

    /** Release is all or nothing: every session of the snapshot goes if one answer was a success. */
    method TriggerRelease(snapshot: seq<int>, answer: int -> Option<int>)
      requires Lists(snapshot, sessions)
      modifies this
      ensures sessions == if AnySuccess(snapshot, answer) then map[] else old(sessions)
    {
      var responses := snapshot;
      ghost var n := 0;
      while responses != []
        invariant 0 <= n <= |snapshot| && responses == snapshot[n..]
        invariant sessions == if AnySuccess(snapshot[..n], answer) then map[] else old(sessions)
      {
        var id := responses[0];
        assert snapshot[..n + 1] == snapshot[..n] + [id];
        if answer(id).Some? && Success(answer(id).value) {
          RemoveAll(snapshot);
          assert id in snapshot[..n + 1];
        }
        responses := responses[1..];
        n := n + 1;
      }
      assert snapshot[..n] == snapshot;
    }

    method RemoveAll(snapshot: seq<int>)
      requires sessions.Keys <= Ids(snapshot)
      modifies this
      ensures sessions == map[]
    {
      for i := 0 to |snapshot|
        invariant sessions.Keys <= Ids(snapshot[i..])
      {
        assert snapshot[i..] == [snapshot[i]] + snapshot[i + 1..];
        RemovePduSession(snapshot[i]);
      }
      assert snapshot[|snapshot|..] == [];
    }

    /** Each session changes by its own answer alone. */
    method TriggerUpDeactivation(snapshot: seq<int>, answer: int -> Option<string>)
      requires Lists(snapshot, sessions)
      modifies this
      ensures sessions.Keys == old(sessions).Keys
      ensures forall id <- sessions ::
                sessions[id] == if answer(id).Some? && Success(Code32(answer(id).value)) then Deactivated
                else old(sessions)[id]
    {
      Drain(snapshot, answer, Deactivated, false);
    }

    method TriggerUpActivation(snapshot: seq<int>, answer: int -> Option<string>)
      requires Lists(snapshot, sessions)
      modifies this
      ensures sessions.Keys == old(sessions).Keys
      ensures forall id <- sessions ::
                sessions[id] == if answer(id).Some? && Success(Code8(answer(id).value)) then Activated
                else old(sessions)[id]
    {
      Drain(snapshot, answer, Activated, true);
    }

    /** The wait loop, which takes the answers in the order of the sessions. */
    method Drain(snapshot: seq<int>, answer: int -> Option<string>, state: UpState, short: bool)
      requires Lists(snapshot, sessions)
      modifies this
      ensures sessions.Keys == old(sessions).Keys
      ensures forall id <- sessions :: sessions[id] == if Reaches(answer, id, short) then state else old(sessions)[id]
    {
      var i := 0;
      while i < |snapshot|
        invariant 0 <= i <= |snapshot|
        invariant sessions.Keys == old(sessions).Keys
        invariant forall id <- sessions ::
                    sessions[id] == if id in snapshot[..i] && Reaches(answer, id, short) then state
                    else old(sessions)[id]
      {
        var id := snapshot[i];
        if answer(id).Some? {
          var code := if short then Code8(answer(id).value) else Code32(answer(id).value);
          if Success(code) {
            SetUpState(id, state);
          }
        }
        i := i + 1;
      }
      assert snapshot[..i] == snapshot;
    }
  }

  /** An answer for this session came and is read as a success. */
  predicate Reaches(answer: int -> Option<string>, id: int, short: bool) {
    answer(id).Some? && Success(if short then Code8(answer(id).value) else Code32(answer(id).value))
  }

  /** Read as an 8-bit code, a status counts as a success exactly when it is 200 or 204 modulo 256. */
  lemma ActivationStatus(status: int)
    requires 0 <= status < 0x8000_0000
    ensures Success(Code8(Print(status))) <==> status % 0x100 in {200, 204}
    ensures Success(Code32(Print(status))) <==> status in {200, 204}
    ensures (Success(Code8(Print(status))) <==> Success(Code32(Print(status)))) <==>
            status % 0x100 !in {200, 204} || status < 0x100
  {
    StoiOfPrinted(status);
    assert Code32(Print(status)) == status;
    assert Code8(Print(status)) == status % 0x100;
  }
}
