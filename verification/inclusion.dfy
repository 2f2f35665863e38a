/** `ensure_inclusion` (password_generate.py lines 20-24): for each required
    set in turn, if no character of the list belongs to it, overwrite one
    random position with a random member of that set. The two random draws of
    each step are inputs here. */
module Inclusion {
  import opened Results

  /** The outcome of `randbelow(len(chars_list))` and of the index that
      `choice(req)` picks, for one required set. */
  datatype Repair = Repair(pos: nat, pick: nat)

  /** Why the repair loop can raise: `randbelow(0)` on an empty list, or
      `choice` on an empty required set. */
  datatype RepairError = EmptyList | EmptyRequiredSet

  /** Some character of `chars` belongs to `req` (line 22). */
  predicate Represented(chars: seq<char>, req: string) {
    exists i :: 0 <= i < |chars| && chars[i] in req
  }

  /** The random draws are in range: a position below the list's length and
      an index below the set's size, whenever those are non-empty. */
  predicate RepairsFit(repairs: seq<Repair>, n: nat, required: seq<string>) {
    && |repairs| == |required|
    && forall k :: 0 <= k < |required| ==>
         && (n > 0 ==> repairs[k].pos < n)
         && (|required[k]| > 0 ==> repairs[k].pick < |required[k]|)
  }

  /** One pass of the loop body (lines 22-24). */
  function RepairOne(chars: seq<char>, req: string, rep: Repair): (r: Result<seq<char>, RepairError>)
    requires |chars| > 0 ==> rep.pos < |chars|
    requires |req| > 0 ==> rep.pick < |req|
    ensures r.Failure? <==> !Represented(chars, req) && (|chars| == 0 || |req| == 0)
    ensures Represented(chars, req) ==> r == Success(chars)
    ensures r.Success? ==> |r.value| == |chars| && Represented(r.value, req)
    ensures r.Success? ==> forall i :: 0 <= i < |chars| ==>
              r.value[i] == chars[i] || (i == rep.pos && r.value[i] in req)
  {
    if Represented(chars, req) then Success(chars)
    else if |chars| == 0 then Failure(EmptyList)
    else if |req| == 0 then Failure(EmptyRequiredSet)
    else
      var next := chars[rep.pos := req[rep.pick]];
      assert next[rep.pos] in req;
      Success(next)
  }

  /** The whole loop (lines 21-24): the required sets are visited in order,
      each one seeing the list as the previous ones left it. */
  function EnsureInclusion(chars: seq<char>, required: seq<string>, repairs: seq<Repair>): (r: Result<seq<char>, RepairError>)
    requires RepairsFit(repairs, |chars|, required)
    // It fails exactly when a repair is needed and cannot draw.
    ensures r.Success? <==> required == [] || (|chars| > 0 && forall k :: 0 <= k < |required| ==> |required[k]| > 0)
    ensures |chars| == 0 && required != [] ==> r == Failure(EmptyList)
    // The list keeps its length; a position either keeps its character or
    // holds one written by the repair of a set that targeted it.
    ensures r.Success? ==> |r.value| == |chars|
    ensures r.Success? ==> forall i :: 0 <= i < |chars| ==>
              r.value[i] == chars[i]
              || exists k :: 0 <= k < |required| && repairs[k].pos == i && r.value[i] in required[k]
    // Only the last set is sure to be represented afterwards.
    ensures r.Success? && required != [] ==> Represented(r.value, required[|required| - 1])
    // Nothing changes when every set is already represented.
    ensures (forall k :: 0 <= k < |required| ==> Represented(chars, required[k])) ==> r == Success(chars)
    decreases |required|
  {
    if required == [] then Success(chars)
    else
      match RepairOne(chars, required[0], repairs[0])
      case Failure(e) => Failure(e)
      case Success(next) => EnsureInclusion(next, required[1..], repairs[1..])
  }
}
