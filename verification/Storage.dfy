// The disk as an array of sectors, read and written one whole sector at a time.
module Storage {
  import opened Common

  const SectorSize: nat := 128
  const SectorsPerTrack: nat := 32
  const NumTracks: nat := 32
  const NumSectors: nat := SectorsPerTrack * NumTracks

  type Sector = s: seq<Byte> | |s| == SectorSize witness seq(SectorSize, _ => 0)

  function ZeroSector(): Sector { seq(SectorSize, _ => 0) }

  type Image = d: seq<Sector> | |d| == NumSectors witness seq<Sector>(NumSectors, _ => ZeroSector())

  // Requests outside the disk are stopped by an ASSERT in the device.
  class SectorDisk {
    var image: Image

    constructor (contents: Image)
      ensures image == contents
    {
      image := contents;
    }

    method ReadSector(n: nat) returns (data: Sector)
      requires n < NumSectors
      ensures data == image[n]
    {
      data := image[n];
    }

    method WriteSector(n: nat, data: Sector)
      requires n < NumSectors
      modifies this
      ensures image == old(image)[n := data]
    {
      image := image[n := data];
    }
  }
}
