/** The memory manager as an object: the counters, the weights file and the operating system's table of
    live mappings. Run on one thread; PeakTracker covers the concurrent use of the peak. */
module MemoryManagement {
  import opened Bits
  import opened CacheModel

  class MemoryManager {
    var currentRamUsage: int
    var peakRamUsage: int
    var cacheOccupancy: int
    var expertSize: nat
    var weightsOpen: bool
    var mappings: map<nat, Region>

    ghost function View(): Mem
      reads this
    {
      Mem(currentRamUsage, peakRamUsage, cacheOccupancy, mappings)
    }

    constructor ()
      ensures View() == Mem(0, 0, 0, map[]) && !weightsOpen && expertSize == 0
    {
      currentRamUsage, peakRamUsage, cacheOccupancy := 0, 0, 0;
      expertSize, weightsOpen, mappings := 0, false, map[];
    }

    /** Adds to the usage and raises the peak; the exchange may fail spuriously any number of times. */
    method TrackAllocation(size: nat)
      modifies this`currentRamUsage, this`peakRamUsage
      ensures currentRamUsage == old(currentRamUsage) + size
      ensures peakRamUsage == MaxOf(old(peakRamUsage), currentRamUsage)
    {
      currentRamUsage := currentRamUsage + size;
      var current := currentRamUsage;
      var peak := peakRamUsage;
      var spurious: nat := *;
      while current > peak
        invariant peak == peakRamUsage == old(peakRamUsage)
        decreases current - peak, spurious
      {
        if spurious > 0 {
          spurious := spurious - 1;
          peak := peakRamUsage;
        } else {
          peakRamUsage := current;
          break;
        }
      }
    }

    method TrackDeallocation(size: nat)
      modifies this`currentRamUsage
      ensures currentRamUsage == old(currentRamUsage) - size
    {
      currentRamUsage := currentRamUsage - size;
    }

    method InitWeightsFile(size: nat) returns (ok: bool)
      modifies this`expertSize, this`weightsOpen
      ensures expertSize == size && weightsOpen == ok
    {
      expertSize := size;
      ok := *;
      weightsOpen := ok;
    }

    method CloseWeightsFile()
      modifies this`expertSize, this`weightsOpen
      ensures !weightsOpen && expertSize == 0
    {
      weightsOpen := false;
      expertSize := 0;
    }

    /** Maps one expert's region at some unused address, or fails; the size is reported either way. */
    method MapExpert(id: Id) returns (ptr: Ptr, outSize: nat)
      modifies this`currentRamUsage, this`peakRamUsage, this`mappings
      ensures outSize == expertSize
      ensures ptr.Null? ==> View() == old(View())
      ensures ptr.At? ==>
                && weightsOpen && ptr.addr !in old(mappings)
                && View() == TrackPeak(CacheModel.MapExpert(old(View()), id, expertSize, ptr.addr), currentRamUsage)
      ensures ptr.At? ==>
                && currentRamUsage == old(currentRamUsage) + expertSize && cacheOccupancy == old(cacheOccupancy)
                && mappings == old(mappings)[ptr.addr := mappings[ptr.addr]]
                && mappings[ptr.addr].expert == id && mappings[ptr.addr].length == expertSize
                && mappings[ptr.addr].offset == (id * expertSize) % 0x1_0000_0000_0000_0000
    {
      outSize := expertSize;
      var offset := OffsetOf(id, expertSize);
      if !weightsOpen {
        return Null, outSize;
      }
      var addr: nat := *;
      var refused: bool := *;
      if refused || addr in mappings {
        return Null, outSize;
      }
      mappings := mappings[addr := Region(id, offset, expertSize)];
      TrackAllocation(expertSize);
      return At(addr), outSize;
    }

    method UnmapExpert(ptr: Ptr, size: nat)
      modifies this`currentRamUsage, this`mappings
      ensures currentRamUsage == old(currentRamUsage) - (if ptr.At? then size else 0)
      ensures mappings == if ptr.At? then old(mappings) - {ptr.addr} else old(mappings)
    {
      if ptr.At? {
        mappings := mappings - {ptr.addr};
        TrackDeallocation(size);
      }
    }

    method AddCacheOccupancy(size: nat)
      modifies this`cacheOccupancy
      ensures cacheOccupancy == old(cacheOccupancy) + size
    {
      cacheOccupancy := cacheOccupancy + size;
    }

    method SubCacheOccupancy(size: nat)
      modifies this`cacheOccupancy
      ensures cacheOccupancy == old(cacheOccupancy) - size
    {
      cacheOccupancy := cacheOccupancy - size;
    }

    method ResetPeakTracker()
      modifies this`peakRamUsage
      ensures peakRamUsage == currentRamUsage
    {
      peakRamUsage := currentRamUsage;
    }
  }
}
