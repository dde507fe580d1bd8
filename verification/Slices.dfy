/** A Go slice of strings: a reference to cells that every holder of it shares. */
module Slices {

  class StringCells {
    var items: seq<string>

    constructor (items: seq<string>)
      ensures this.items == items
    {
      this.items := items;
    }
  }
}
