/** Step 5 of `setup_parameters` (worker/worker.py): the fix-ups applied to
    the parsed options, which rewrite a port that contradicts the protocol
    and lower the concurrency to what the reserved memory can run. */
module Setup {
  import opened Wrappers

  /** Memory in MiB that one pair of engines needs for an STC game: per
      engine 16 for the hash table, 10 for the process, 138 for the
      network and 16 per thread. */
  const StcMemory: int := 2 * (16 + 10 + 138 + 16)

  /** Memory in MiB that fastchess needs. */
  const FastchessMemory: int := 60

  /** The least memory in MiB with which the worker can run at all. */
  const MinimumMemory: int := StcMemory + FastchessMemory

  /** The port the worker uses: an http URL on the https port is sent to
      port 80, an https URL on the http port to port 443. */
  function RewritePort(protocol: seq<char>, port: int): (p: int)
    ensures protocol == "http" && port == 443 ==> p == 80
    ensures protocol == "https" && port == 80 ==> p == 443
    ensures protocol == "http" ==> p != 443
    ensures protocol == "https" ==> p != 80
    ensures (protocol == "http" && port == 443) || (protocol == "https" && port == 80) || p == port
  {
    if protocol == "http" && port == 443 then 80
    else if protocol == "https" && port == 80 then 443
    else port
  }

  /** Rewriting an already rewritten port changes nothing. */
  lemma RewritePortIdempotent(protocol: seq<char>, port: int)
    ensures RewritePort(protocol, RewritePort(protocol, port)) == RewritePort(protocol, port)
  {
  }

  /** Python's `int(a / StcMemory)`: the quotient of the float division
      rounded toward zero (Dafny's `/` by a positive number rounds toward
      negative infinity). */
  function TruncDivStc(a: int): (q: int)
    ensures a >= 0 ==> 0 <= q && q * StcMemory <= a < q * StcMemory + StcMemory
    ensures a < 0 ==> q <= 0 && q * StcMemory - StcMemory < a <= q * StcMemory
  {
    if a >= 0 then a / StcMemory else -((-a) / StcMemory)
  }

  /** `int((max_memory - 60) / 360)`: how many STC game pairs fit in the
      reserved memory beside fastchess. */
  function MaxConcurrency(maxMemory: int): int
  {
    TruncDivStc(maxMemory - FastchessMemory)
  }

  /** Setup gives up exactly when less than 420 MiB are reserved. */
  lemma MaxConcurrencyPositive(maxMemory: int)
    ensures MaxConcurrency(maxMemory) >= 1 <==> maxMemory >= MinimumMemory
  {
  }

  /** When setup goes on, the cap is the largest number of game pairs whose
      memory, with fastchess's, stays within the reservation. */
  lemma MaxConcurrencyLargest(maxMemory: int)
    requires maxMemory >= MinimumMemory
    ensures StcMemory * MaxConcurrency(maxMemory) + FastchessMemory <= maxMemory
    ensures maxMemory < StcMemory * (MaxConcurrency(maxMemory) + 1) + FastchessMemory
  {
  }

  /** What the fix-ups decide: the final port, and either the memory is too
      small (`None`) or the final concurrency and whether it was lowered. */
  datatype Capped = Capped(concurrency: int, reduced: bool)

  function CapConcurrency(requested: int, maxMemory: int): (r: Option<Capped>)
    ensures r.None? <==> maxMemory < MinimumMemory
    ensures r.Some? ==> r.value.concurrency <= requested
    ensures r.Some? ==> StcMemory * r.value.concurrency + FastchessMemory <= maxMemory
    ensures r.Some? ==> (r.value.reduced <==> r.value.concurrency < requested)
    ensures r.Some? && !r.value.reduced ==> r.value.concurrency == requested
    ensures r.Some? && r.value.reduced ==> r.value.concurrency == MaxConcurrency(maxMemory)
  {
    MaxConcurrencyPositive(maxMemory);
    var cap := MaxConcurrency(maxMemory);
    if cap < 1 then None
    else
      MaxConcurrencyLargest(maxMemory);
      if cap < requested then Some(Capped(cap, true))
      else Some(Capped(requested, false))
  }

  /** The concurrency kept is the requested one when the memory allows it,
      and otherwise the most the memory allows: the smaller of the two. */
  lemma CapIsMinimum(requested: int, maxMemory: int)
    requires maxMemory >= MinimumMemory
    ensures CapConcurrency(requested, maxMemory).Some?
    ensures CapConcurrency(requested, maxMemory).value.concurrency
         == if requested < MaxConcurrency(maxMemory) then requested else MaxConcurrency(maxMemory)
  {
  }

  /** The fields of the parsed command line that step 5 reads and updates. */
  class Options {
    var protocol: seq<char>
    var port: int
    var concurrency: int
    var maxMemory: int
    var concurrencyReduced: bool

    constructor (protocol: seq<char>, port: int, concurrency: int, maxMemory: int)
      ensures this.protocol == protocol && this.port == port
      ensures this.concurrency == concurrency && this.maxMemory == maxMemory
      ensures !concurrencyReduced
    {
      this.protocol := protocol;
      this.port := port;
      this.concurrency := concurrency;
      this.maxMemory := maxMemory;
      this.concurrencyReduced := false;
    }

    /** Step 5 of `setup_parameters`: rewrite the port, then cap the
        concurrency by memory; `ok` is false where the source gives up and
        returns `None`. */
    method FixUp() returns (ok: bool)
      modifies this`port, this`concurrency, this`concurrencyReduced
      ensures port == RewritePort(protocol, old(port))
      ensures ok <==> CapConcurrency(old(concurrency), maxMemory).Some?
      ensures ok ==> concurrency == CapConcurrency(old(concurrency), maxMemory).value.concurrency
      ensures ok ==> concurrencyReduced == CapConcurrency(old(concurrency), maxMemory).value.reduced
      ensures !ok ==> concurrency == old(concurrency) && concurrencyReduced == old(concurrencyReduced)
    {
      if protocol == "http" && port == 443 {
        port := 80;
      } else if protocol == "https" && port == 80 {
        port := 443;
      }
      var cap := TruncDivStc(maxMemory - FastchessMemory);
      if cap < 1 {
        return false;
      }
      concurrencyReduced := false;
      if cap < concurrency {
        concurrency := cap;
        concurrencyReduced := true;
      }
      return true;
    }
  }
}
