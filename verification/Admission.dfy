/** Admission control at the gateway. */
module Admission {
  import opened Options

  datatype Policy = Policy(maxQueueDepth: int, maxPendingRequests: int, maxProcessingRequests: int, enabled: bool)

  datatype SystemLoad = SystemLoad(queueDepth: int, pendingCount: int, processingCount: int)

  datatype Decision = Admit | RejectQueueDepth | RejectPending | RejectProcessing | Disabled

  /** The first limit reached decides, in the order queue depth, pending, processing. */
  function Check(p: Policy, load: SystemLoad): (d: Decision)
    ensures d == Disabled <==> !p.enabled
    ensures d == Admit <==> p.enabled && load.queueDepth < p.maxQueueDepth
                            && load.pendingCount < p.maxPendingRequests
                            && load.processingCount < p.maxProcessingRequests
    ensures d == RejectQueueDepth <==> p.enabled && p.maxQueueDepth <= load.queueDepth
    ensures d == RejectPending <==>
            p.enabled && load.queueDepth < p.maxQueueDepth && p.maxPendingRequests <= load.pendingCount
    ensures d == RejectProcessing <==>
            p.enabled && load.queueDepth < p.maxQueueDepth && load.pendingCount < p.maxPendingRequests
            && p.maxProcessingRequests <= load.processingCount
  {
    if !p.enabled then Disabled
    else if load.queueDepth >= p.maxQueueDepth then RejectQueueDepth
    else if load.pendingCount >= p.maxPendingRequests then RejectPending
    else if load.processingCount >= p.maxProcessingRequests then RejectProcessing
    else Admit
  }

  /** The seconds after which a rejected caller is told to come back. */
  function RetryAfter(d: Decision): (seconds: Option<int>)
    ensures seconds.None? <==> d == Admit || d == Disabled
    ensures seconds.Some? ==> seconds.value in {5, 10, 15}
    ensures seconds == Some(10) <==> d == RejectQueueDepth
    ensures seconds == Some(5) <==> d == RejectPending
    ensures seconds == Some(15) <==> d == RejectProcessing
  {
    match d
    case RejectQueueDepth => Some(10)
    case RejectPending => Some(5)
    case RejectProcessing => Some(15)
    case _ => None
  }
}
