/** The declared forwards: a list in declaration order, one per listening address. */
module Forwards {
  import opened Options
  import opened Upstreams

  datatype Target = Target(host: string, port: nat)

  datatype Forward = Forward(listen: Addr, target: Target)

  /** Refusal of a second forward on one address. */
  datatype DuplicateForward = DuplicateForward(listen: Addr)

  predicate Declares(forwards: seq<Forward>, listen: Addr) {
    exists k :: 0 <= k < |forwards| && forwards[k].listen == listen
  }

  ghost predicate OnePerAddress(forwards: seq<Forward>) {
    forall j, k :: 0 <= j < k < |forwards| ==> forwards[j].listen != forwards[k].listen
  }

  function Pushed(forwards: seq<Forward>, forward: Forward): Result<seq<Forward>, DuplicateForward> {
    if Declares(forwards, forward.listen) then Err(DuplicateForward(forward.listen)) else Ok(forwards + [forward])
  }

  method Push(forwards: seq<Forward>, forward: Forward) returns (r: Result<seq<Forward>, DuplicateForward>)
    ensures r == Pushed(forwards, forward)
    ensures OnePerAddress(forwards) && r.Ok? ==> OnePerAddress(r.value)
  {
    for k := 0 to |forwards|
      invariant forall j :: 0 <= j < k ==> forwards[j].listen != forward.listen
    {
      if forwards[k].listen == forward.listen {
        return Err(DuplicateForward(forward.listen));
      }
    }
    return Ok(forwards + [forward]);
  }

  function TargetOf(forwards: seq<Forward>, listen: Addr): (r: Option<Target>)
    ensures r.None? <==> !Declares(forwards, listen)
    ensures r.Some? ==> Forward(listen, r.value) in forwards
  {
    if forwards == [] then None
    else if forwards[0].listen == listen then Some(forwards[0].target)
    else
      var later := TargetOf(forwards[1..], listen);
      assert forwards == [forwards[0]] + forwards[1..];
      later
  }

  lemma TargetAt(forwards: seq<Forward>, i: nat)
    requires OnePerAddress(forwards) && i < |forwards|
    ensures TargetOf(forwards, forwards[i].listen) == Some(forwards[i].target)
  {
  }
}
