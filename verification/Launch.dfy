// Width changes of a kernel launch: the handler multiplies 64-bit register
// values and stores truncated 32-bit dimensions; the aggregator multiplies the
// stored dimensions again, in 32 bits.
module Launch {
  import opened Arith
  import opened Records

  // The six arguments as the handler sees them. The hardware ABI passes 32-bit
  // values; nothing clears the upper half of a register or of the 8-byte stack
  // read that yields blockZ.
  datatype Dims = Dims(gridX: U64, gridY: U64, gridZ: U64, blockX: U64, blockY: U64, blockZ: U64) {
    // The dimensions the caller meant: the low halves.
    function Low(): Dims {
      Dims(Wrap32(gridX), Wrap32(gridY), Wrap32(gridZ), Wrap32(blockX), Wrap32(blockY), Wrap32(blockZ))
    }

    function TotalBlocks(): U64 {
      Mul64(Mul64(gridX, gridY), gridZ)
    }

    function ThreadsBlock(): U64 {
      Mul64(Mul64(blockX, blockY), blockZ)
    }

    function TotalThreads(): U64 {
      Mul64(TotalBlocks(), ThreadsBlock())
    }

    // The same quantities over the integers.
    ghost function ExactBlocks(): int {
      gridX * gridY * gridZ
    }

    ghost function ExactThreads(): int {
      gridX * gridY * gridZ * (blockX * blockY * blockZ)
    }
  }

  function LaunchRecord(pid: U32, comm: Comm, d: Dims): Event {
    KernelLaunch(pid, comm,
                 Wrap32(d.gridX), Wrap32(d.gridY), Wrap32(d.gridZ),
                 Wrap32(d.blockX), Wrap32(d.blockY), Wrap32(d.blockZ),
                 d.TotalBlocks(), d.ThreadsBlock(), d.TotalThreads())
  }

  // The record holds each number in its own field: the process, the dimensions
  // cut to 32 bits, blocks, threads per block and threads modulo 2^64.
  lemma RecordHoldsLaunch(pid: U32, comm: Comm, d: Dims)
    ensures var e := LaunchRecord(pid, comm, d);
            && e.KernelLaunch? && e.pid == pid && e.comm == comm
            && e.gridx == Wrap32(d.gridX) && e.gridy == Wrap32(d.gridY) && e.gridz == Wrap32(d.gridZ)
            && e.blockx == Wrap32(d.blockX) && e.blocky == Wrap32(d.blockY) && e.blockz == Wrap32(d.blockZ)
            && e.totalBlocks == Wrap64(d.gridX * d.gridY * d.gridZ)
            && e.threadsBlock == Wrap64(d.blockX * d.blockY * d.blockZ)
            && e.totalThreads == Wrap64(d.gridX * d.gridY * d.gridZ * (d.blockX * d.blockY * d.blockZ))
            && d.Low() == Dims(e.gridx, e.gridy, e.gridz, e.blockx, e.blocky, e.blockz)
  {
    TotalsAreExactModulo(d);
    Wrap64Product3(d.blockX, d.blockY, d.blockZ);
  }

  // The block count the aggregator averages: a uint32 product.
  function Blocks(e: Event): U32
    requires e.KernelLaunch?
  {
    Mul32(Mul32(e.gridx, e.gridy), e.gridz)
  }

  lemma Wrap32Product3(a: int, b: int, c: int)
    ensures Wrap32(Wrap32(a) * Wrap32(b) * Wrap32(c)) == Wrap32(a * b * c)
    ensures Mul32(Mul32(Wrap32(a), Wrap32(b)), Wrap32(c)) == Wrap32(a * b * c)
  {
    Wrap32Mul(Wrap32(a), b);
    Wrap32Mul(a, b);
    Wrap32Mul(Wrap32(a) * Wrap32(b), c);
    Wrap32Mul(a * b, c);
    Wrap32Mul(Wrap32(a) * Wrap32(b), Wrap32(c));
  }

  lemma Wrap64Product3(a: U64, b: U64, c: U64)
    ensures Mul64(Mul64(a, b), c) == Wrap64(a * b * c)
  {
    Wrap64Mul(a * b, c);
  }

  lemma TotalsAreExactModulo(d: Dims)
    ensures d.TotalBlocks() == Wrap64(d.ExactBlocks())
    ensures d.TotalThreads() == Wrap64(d.ExactThreads())
  {
    var g, b := d.gridX * d.gridY * d.gridZ, d.blockX * d.blockY * d.blockZ;
    Wrap64Product3(d.gridX, d.gridY, d.gridZ);
    Wrap64Product3(d.blockX, d.blockY, d.blockZ);
    Wrap64Mul(g, Wrap64(b));
    Wrap64Mul(g, b);
  }

  // For all register contents, the aggregator's 32-bit block count is the
  // handler's 64-bit one modulo 2^32.
  lemma BlocksAgreeModulo(pid: U32, comm: Comm, d: Dims)
    ensures Blocks(LaunchRecord(pid, comm, d)) == Wrap32(d.TotalBlocks())
    ensures Blocks(LaunchRecord(pid, comm, d)) == Wrap32(d.Low().ExactBlocks())
  {
    TotalsAreExactModulo(d);
    Wrap32Product3(d.gridX, d.gridY, d.gridZ);
    Wrap32OfWrap64(d.ExactBlocks());
  }

  // They are equal exactly when the 64-bit count fits in 32 bits.
  lemma BlocksAgreeIff(pid: U32, comm: Comm, d: Dims)
    ensures Blocks(LaunchRecord(pid, comm, d)) == d.TotalBlocks() <==> d.TotalBlocks() < TWO_32
  {
    BlocksAgreeModulo(pid, comm, d);
  }

  // A launch whose grid is legal on current hardware and whose block count
  // the aggregator averages as zero.
  lemma BlocksCanVanish(pid: U32, comm: Comm)
    ensures var d := Dims(65536, 32768, 2, 1, 1, 1);
            d.TotalBlocks() == TWO_32 && Blocks(LaunchRecord(pid, comm, d)) == 0
  {
  }

  // The thread count modulo 2^32 depends only on the 32-bit dimensions,
  // whatever the upper halves hold.
  lemma ThreadsModulo32(d: Dims)
    ensures Wrap32(d.TotalThreads()) == Wrap32(d.Low().ExactThreads())
  {
    var l := d.Low();
    TotalsAreExactModulo(d);
    Wrap32OfWrap64(d.ExactThreads());
    Wrap32Product3(d.gridX, d.gridY, d.gridZ);
    Wrap32Product3(d.blockX, d.blockY, d.blockZ);
    Wrap32Mul(d.gridX * d.gridY * d.gridZ, d.blockX * d.blockY * d.blockZ);
    Wrap32Mul(d.gridX * d.gridY * d.gridZ, Wrap32(d.blockX * d.blockY * d.blockZ));
    Wrap32Mul(l.gridX * l.gridY * l.gridZ, l.blockX * l.blockY * l.blockZ);
    Wrap32Mul(l.gridX * l.gridY * l.gridZ, Wrap32(l.blockX * l.blockY * l.blockZ));
  }

  // With clean upper halves, a stored total is exact exactly when it fits.
  lemma TotalsExactIff(d: Dims)
    requires d == d.Low()
    ensures d.TotalBlocks() == d.ExactBlocks() <==> d.ExactBlocks() < TWO_64
    ensures d.TotalThreads() == d.ExactThreads() <==> d.ExactThreads() < TWO_64
  {
    TotalsAreExactModulo(d);
    ProductNonNegative(d.gridX, d.gridY);
    ProductNonNegative(d.gridX * d.gridY, d.gridZ);
    ProductNonNegative(d.blockX, d.blockY);
    ProductNonNegative(d.blockX * d.blockY, d.blockZ);
    ProductNonNegative(d.ExactBlocks(), d.blockX * d.blockY * d.blockZ);
    FitsIff(d.ExactBlocks());
    FitsIff(d.ExactThreads());
  }

  lemma FitsIff(n: int)
    requires n >= 0
    ensures Wrap64(n) == n <==> n < TWO_64
  {
  }

  lemma ProductNonNegative(a: int, b: int)
    requires a >= 0 && b >= 0
    ensures a * b >= 0
  {
  }

  // 2^32 * m vanishes modulo 2^64 exactly when 2^32 divides m.
  lemma HighHalfVanishes(x: int, m: int)
    ensures Wrap64(x + 0x1_0000_0000 * m) == Wrap64(x) <==> Wrap32(m) == 0
  {
    var q, r: int := m / 0x1_0000_0000, Wrap32(m);
    assert x + 0x1_0000_0000 * m == (x + 0x1_0000_0000 * r) + q * 0x1_0000_0000_0000_0000;
    Wrap64Shift(x + 0x1_0000_0000 * r, q);
  }

  // The 8-byte read of blockZ: junk in its upper half leaves the 64-bit thread
  // count correct exactly when the junk times the other five dimensions is a
  // multiple of 2^32.
  lemma BlockZJunk(d: Dims, junk: U32)
    requires d == d.Low()
    requires junk * TWO_32 + d.blockZ < TWO_64
    ensures d.(blockZ := junk * TWO_32 + d.blockZ).TotalThreads() == d.TotalThreads()
       <==> Wrap32(d.gridX * d.gridY * d.gridZ * (d.blockX * d.blockY) * junk) == 0
  {
    var d' := d.(blockZ := junk * TWO_32 + d.blockZ);
    var g, b := d.gridX * d.gridY * d.gridZ, d.blockX * d.blockY;
    TotalsAreExactModulo(d);
    TotalsAreExactModulo(d');
    calc {
      d'.ExactThreads();
      g * (b * (junk * TWO_32 + d.blockZ));
      { Distribute(b, junk * TWO_32, d.blockZ); }
      g * (b * (junk * TWO_32) + b * d.blockZ);
      { Distribute(g, b * (junk * TWO_32), b * d.blockZ); }
      g * (b * (junk * TWO_32)) + d.ExactThreads();
      { Regroup(g, b, junk); }
      d.ExactThreads() + 0x1_0000_0000 * (g * b * junk);
    }
    HighHalfVanishes(d.ExactThreads(), g * b * junk);
  }

  // One bit of junk: a launch of a single thread is counted as 2^32 + 1 threads
  // while its stored dimensions are all one.
  lemma JunkCanSpoilThreads(pid: U32, comm: Comm)
    ensures var clean, read := Dims(1, 1, 1, 1, 1, 1), Dims(1, 1, 1, 1, 1, TWO_32 + 1);
            && read.Low() == clean && clean.TotalThreads() == 1 && read.TotalThreads() == TWO_32 + 1
            && LaunchRecord(pid, comm, read) == KernelLaunch(pid, comm, 1, 1, 1, 1, 1, 1, 1, TWO_32 + 1, TWO_32 + 1)
  {
  }

  lemma Distribute(a: int, b: int, c: int)
    ensures a * (b + c) == a * b + a * c
  {
  }

  lemma Regroup(g: int, b: int, j: int)
    ensures g * (b * (j * TWO_32)) == 0x1_0000_0000 * (g * b * j)
  {
    assert b * (j * TWO_32) == (b * j) * TWO_32;
    assert g * ((b * j) * TWO_32) == (g * (b * j)) * TWO_32;
    assert g * (b * j) == g * b * j;
  }
}
