/**
 * The station price table as the planner consumes it, and the column-name
 * normalisation applied when the table is loaded (load_fuel_prices).
 */
module Stations {
  import opened Wrappers
  import opened Text
  import opened Route

  /** One row of the price table that survived the loader's removal of rows
      without latitude, longitude or price. The name is absent when the table
      has no truckstop_name column. */
  datatype Station = Station(latitude: real, longitude: real, price: real, truckstopName: Option<string>)

  function Location(st: Station): GeoPoint {
    GeoPoint(st.latitude, st.longitude)
  }

  /** A column name trimmed, lower-cased, with every space turned into an underscore. */
  function NormaliseColumn(c: string): (r: string)
    ensures |r| == |Strip(c)| <= |c|
  {
    ReplaceAll(Lower(Strip(c)), " ", "_")
  }

  /** The header rewrite: every column name normalised, in place. */
  function NormaliseColumns(columns: seq<string>): (r: seq<string>)
    ensures |r| == |columns|
    ensures forall k :: 0 <= k < |columns| ==> r[k] == NormaliseColumn(columns[k])
  {
    seq(|columns|, k requires 0 <= k < |columns| => NormaliseColumn(columns[k]))
  }

  /** A normalised column name is lower case, has no spaces, and has no
      whitespace at either end. */
  predicate IsNormalisedColumn(c: string) {
    && (forall k :: 0 <= k < |c| ==> !IsUpper(c[k]) && c[k] != ' ')
    && (c == [] || (!IsSpace(c[0]) && !IsSpace(c[|c| - 1])))
  }

  lemma NormaliseColumnShape(c: string)
    ensures IsNormalisedColumn(NormaliseColumn(c))
    ensures |NormaliseColumn(c)| == |Strip(c)|
  {
    var l := Lower(Strip(c));
    StripSlice(c);
    ReplaceCharWise(l, ' ', '_');
  }

  /** A name in normal form is left as it is. */
  lemma NormaliseColumnFixes(c: string)
    requires IsNormalisedColumn(c)
    ensures NormaliseColumn(c) == c
  {
    StripStripped(c);
    assert Lower(c) == c;
    CharNotOccurs(c, ' ');
    ReplaceAbsent(c, " ", "_");
  }

  /** Normalising the header twice is the same as normalising it once. */
  lemma NormaliseColumnsIdempotent(columns: seq<string>)
    ensures NormaliseColumns(NormaliseColumns(columns)) == NormaliseColumns(columns)
  {
    var once := NormaliseColumns(columns);
    forall k | 0 <= k < |columns| ensures NormaliseColumn(once[k]) == once[k] {
      NormaliseColumnShape(columns[k]);
      NormaliseColumnFixes(once[k]);
    }
  }
}
