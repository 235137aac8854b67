// Stations: Station.java.
module Stations {
  import opened Common
  import opened Graph
  import opened Track

  /** A row of the station table: what the database gives about a station. */
  datatype StationRow = StationRow(name: string, sequence: int, distanceToPrevious: int, depotSequence: int)

  /**
   * A station. Its identity is its reference; every field the model keeps is final in the
   * source. The platforms are the two platform hubs the constructor creates in the network.
   */
  class Station {
    const name: string
    const sequence: int
    const distanceToPrevious: int
    const depotSequence: int
    const platforms: Platforms
    /** Where the files of the station are found. */
    const stationPath: string

    /**
     * A station made from its row: a northbound and then a southbound platform, each a new
     * platform hub of the LRT-1 platform length.
     */
    constructor (net: Network, trainSystemPath: string, row: StationRow)
      requires net.Valid()
      modifies net`segments, net`junctions, net`signals, net`queues
      ensures net.Valid()
      ensures name == row.name && sequence == row.sequence
      ensures distanceToPrevious == row.distanceToPrevious && depotSequence == row.depotSequence
      ensures stationPath == trainSystemPath + "\\stations\\" + row.name
      ensures var northbound := Hub(old(net.Topo()), LRT_1_PLATFORM_LENGTH);
              platforms.northbound == northbound.1 &&
              (net.Topo(), platforms.southbound) == Hub(northbound.0, LRT_1_PLATFORM_LENGTH)
      ensures net.signals == old(net.signals) + [1, 1, 1, 1]
      ensures net.queues == old(net.queues) + [[], []]
    {
      name := row.name;
      sequence := row.sequence;
      distanceToPrevious := row.distanceToPrevious;
      depotSequence := row.depotSequence;
      var northbound := NewPlatformHub(net, LRT_1_PLATFORM_LENGTH);
      var southbound := NewPlatformHub(net, LRT_1_PLATFORM_LENGTH);
      platforms := Platforms(northbound, southbound);
      stationPath := trainSystemPath + "\\stations\\" + row.name;
    }
  }

  /** `Integer.compare`: negative, zero or positive as `x` is below, equal to or above `y`. */
  function Compare(x: int, y: int): (r: int)
    ensures r < 0 <==> x < y
    ensures r == 0 <==> x == y
    ensures r > 0 <==> x > y
  {
    if x < y then -1 else if x == y then 0 else 1
  }

  /** Orders stations by their place counted from the depot, nearest first. */
  function ByDepotSequenceAscending(a: Station, b: Station): int
  {
    Compare(a.depotSequence, b.depotSequence)
  }

  /** Orders stations by their place counted from the depot, farthest first. */
  function ByDepotSequenceDescending(a: Station, b: Station): int
  {
    Compare(b.depotSequence, a.depotSequence)
  }

  /** The descending order is exactly the ascending one reversed. */
  lemma DescendingNegatesAscending(a: Station, b: Station)
    ensures ByDepotSequenceDescending(a, b) == -ByDepotSequenceAscending(a, b)
  {
  }

  /** The ascending order looks only at the depot sequence and is a total preorder on it. */
  lemma AscendingIsTotalPreorder(a: Station, b: Station, c: Station)
    ensures ByDepotSequenceAscending(a, b) == -ByDepotSequenceAscending(b, a)
    ensures ByDepotSequenceAscending(a, b) == 0 <==> a.depotSequence == b.depotSequence
    ensures ByDepotSequenceAscending(a, b) <= 0 && ByDepotSequenceAscending(b, c) <= 0 ==>
              ByDepotSequenceAscending(a, c) <= 0
  {
  }
}
