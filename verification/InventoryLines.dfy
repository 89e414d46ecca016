/** Lists of order lines and the SKUs they name. */
module InventoryLines {
  import opened InventorySpec

  predicate PositiveLines(lines: seq<Line>) {
    forall i :: 0 <= i < |lines| ==> lines[i].quantity > 0
  }

  predicate DistinctLines(lines: seq<Line>) {
    forall i, j :: 0 <= i < j < |lines| ==> lines[i].sku != lines[j].sku
  }

  function Skus(lines: seq<Line>): set<string> {
    set i | 0 <= i < |lines| :: lines[i].sku
  }

  lemma SkusSnoc(lines: seq<Line>)
    requires lines != []
    ensures Skus(lines) == Skus(lines[..|lines| - 1]) + {lines[|lines| - 1].sku}
    ensures DistinctLines(lines) <==>
              DistinctLines(lines[..|lines| - 1]) && lines[|lines| - 1].sku !in Skus(lines[..|lines| - 1])
  {
    var n := |lines| - 1;
    var rest := lines[..n];
    forall x ensures x in Skus(lines) <==> x in Skus(rest) || x == lines[n].sku {
      if x in Skus(rest) {
        var i :| 0 <= i < n && rest[i].sku == x;
        assert lines[i].sku == x;
      }
      if x in Skus(lines) && x != lines[n].sku {
        var i :| 0 <= i < |lines| && lines[i].sku == x;
        assert rest[i].sku == x;
      }
      assert lines[n].sku in Skus(lines);
    }
    if DistinctLines(lines) {
      forall i | 0 <= i < n ensures rest[i].sku != lines[n].sku { assert lines[i].sku == rest[i].sku; }
    } else {
      var i, j :| 0 <= i < j < |lines| && lines[i].sku == lines[j].sku;
      assert rest[i].sku in Skus(rest);
    }
  }

  /** A list names as many SKUs as it has lines exactly when none is repeated. */
  lemma {:induction false} SkuCount(lines: seq<Line>)
    ensures |Skus(lines)| <= |lines|
    ensures |Skus(lines)| == |lines| <==> DistinctLines(lines)
  {
    if lines != [] {
      SkusSnoc(lines);
      SkuCount(lines[..|lines| - 1]);
      hide Skus, DistinctLines;
    }
  }
}
