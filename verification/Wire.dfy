// The messages both collectors emit, and the values they accept.
module Wire {
  import opened Arith
  import opened Records

  // What a collector's Update may be handed: one of the four records, or any
  // other value, which every collector ignores.
  datatype Incoming = Gpu(event: Event) | Foreign

  datatype Token = Token(timestamp: int, eventType: U8, value: real, dir: U8)

  datatype TimeWindow = TimeWindow(
    windowStartNs: int, windowEndNs: int,
    kernelLaunchCount: U64, memAllocCount: U64, memcpyCount: U64, streamSyncCount: U64,
    avgThreadsPerKernel: real, avgBlocksPerKernel: real,
    maxThreadsPerKernel: U64, totalThreadsLaunched: U64,
    totalMemAllocBytes: U64, totalMemcpyBytes: U64, htodBytes: U64, dtohBytes: U64, htodRatio: real,
    avgMemAllocBytes: real, avgMemcpyBytes: real,
    avgSyncTimeNs: real, maxSyncTimeNs: U64, syncFraction: real,
    launchRate: real, memcpyRate: real, allocRate: real)

  datatype Payload = TokenPayload(token: Token) | WindowPayload(tw: TimeWindow)

  datatype GpuEvent = GpuEvent(pid: U32, comm: seq<U8>, eventType: string, payload: Payload)

  datatype GpuBatch = GpuBatch(kind: string, batch: seq<GpuEvent>)
}
