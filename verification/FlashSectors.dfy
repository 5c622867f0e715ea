/** The sectors of the flash: finding the one that holds an address, and the first one after the program image. */
module FlashSectors {
  import opened BinMaps

  /** Where sector i begins, from the beginning of the flash. */
  function SectorStart(sizes: seq<nat>, i: nat): nat
    requires i <= |sizes|
  {
    if i == 0 then 0 else SectorStart(sizes, i - 1) + sizes[i - 1]
  }

  function Total(sizes: seq<nat>): nat { SectorStart(sizes, |sizes|) }

  lemma {:induction false} StartsGrow(sizes: seq<nat>, i: nat, j: nat)
    requires i <= j <= |sizes|
    ensures SectorStart(sizes, i) <= SectorStart(sizes, j)
  {
    if i < j { StartsGrow(sizes, i, j - 1); }
  }

  /** Sector i holds the address. */
  predicate Within(sizes: seq<nat>, i: nat, address: nat)
    requires i < |sizes|
  {
    SectorStart(sizes, i) <= address < SectorStart(sizes, i + 1)
  }

  lemma WithinOne(sizes: seq<nat>, i: nat, j: nat, address: nat)
    requires i < |sizes| && j < |sizes| && Within(sizes, i, address) && Within(sizes, j, address)
    ensures i == j
  {
    if i < j { StartsGrow(sizes, i + 1, j); }
    if j < i { StartsGrow(sizes, j + 1, i); }
  }

  class Sectors {
    /** INTERNAL_FLASH_START_ADDRESS, INTERNAL_FLASH_SECTOR_ARRAY and flash_used_size. */
    const start: nat
    const sizes: seq<nat>
    const used: nat

    ghost predicate Valid() { sizes != [] && 0 < used <= Total(sizes) }

    /** flashh_find_sector for sectors of different sizes; addresses behind the flash count as in the last sector. */
    method FindSector(address0: nat) returns (sect: nat, pstart: nat, pend: int)
      requires sizes != [] && start <= address0
      ensures sect < |sizes| && pstart == start + SectorStart(sizes, sect)
              && pend == start + SectorStart(sizes, sect + 1) - 1
      ensures if address0 - start < Total(sizes) then Within(sizes, sect, address0 - start) else sect == |sizes| - 1
    {
      var address := address0 - start;
      var total, i := 0, 0;
      while total <= address && i < |sizes|
        invariant 0 <= i <= |sizes| && total == SectorStart(sizes, i)
        invariant i > 0 ==> SectorStart(sizes, i - 1) <= address
      {
        total := total + sizes[i];
        i := i + 1;
      }
      pstart := total - sizes[i - 1] + start;
      pend := total + start - 1;
      sect := i - 1;
      if address >= Total(sizes) { StartsGrow(sizes, i, |sizes|); }
    }

    /** platform_flash_get_first_free_block_address. */
    method FirstFree() returns (address: nat, psect: nat)
      requires Valid()
      ensures psect <= |sizes| && address == start + SectorStart(sizes, psect) && used <= SectorStart(sizes, psect)
      ensures forall i :: 0 <= i < psect ==> SectorStart(sizes, i) < used
    {
      var sect, _, temp := FindSector(used + start - 1);
      psect := sect + 1;
      address := temp + 1;
      forall i | 0 <= i < psect
        ensures SectorStart(sizes, i) < used
      {
        StartsGrow(sizes, i, sect);
      }
    }
  }

  // ---- sectors of one size ----

  /** flashh_find_sector for sectors of one size. */
  method FindUniform(start: nat, size: nat, address0: nat) returns (sect: nat, pstart: nat, pend: nat)
    requires size > 0 && start <= address0
    ensures pstart <= address0 <= pend && pend + 1 - pstart == size
    ensures pstart == start + sect * size
  {
    var address := address0 - start;
    sect := address / size;
    pstart := sect * size + start;
    pend := (sect + 1) * size + start - 1;
  }

  lemma {:induction false} UniformStart(sizes: seq<nat>, size: nat, i: nat)
    requires i <= |sizes| && forall j :: 0 <= j < |sizes| ==> sizes[j] == size
    ensures SectorStart(sizes, i) == i * size
  {
    if i > 0 { UniformStart(sizes, size, i - 1); }
  }

  /** Both forms find the same sector. */
  lemma FormsAgree(sizes: seq<nat>, size: nat, i: nat, address: nat)
    requires size > 0 && i < |sizes| && (forall j :: 0 <= j < |sizes| ==> sizes[j] == size)
    ensures Within(sizes, i, address) <==> address / size == i
  {
    UniformStart(sizes, size, i);
    UniformStart(sizes, size, i + 1);
    if Within(sizes, i, address) { DivUnique(address, size, i, address - i * size); }
  }
}
