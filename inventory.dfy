/**
 * The inventory ledger and the bill-of-materials lookup: material receipts
 * (`inboundMaterial`), the availability check (`isMaterialAvailable`) and the
 * backflush that a good production report runs over a product's BOM lines.
 */
module Inventory {
  import opened JavaInt
  import opened Wrappers

  /** A raw material, identified by its business code. */
  datatype Material = Material(code: string, name: string, currentStock: int32)

  /** One BOM line: `requiredQty` units of material `materialCode` per unit of product. */
  datatype BomLine = BomLine(materialCode: string, requiredQty: int32)

  /** The material table, keyed by material code. */
  type Stock = map<string, Material>

  /** The BOM table: the lines of each product code. */
  type Boms = map<string, seq<BomLine>>

  /** Every material is stored under its own code. */
  ghost predicate WellKeyed(materials: Stock) {
    forall c :: c in materials ==> materials[c].code == c
  }

  /** Every line refers to an existing material (a BOM line holds a reference to a material row). */
  predicate Covers(materials: Stock, lines: seq<BomLine>) {
    forall i :: 0 <= i < |lines| ==> lines[i].materialCode in materials
  }

  predicate BomsCovered(materials: Stock, boms: Boms) {
    forall p :: p in boms ==> Covers(materials, boms[p])
  }

  /** The lines of a product; a product without BOM rows has none. */
  function BomOf(boms: Boms, productCode: string): seq<BomLine> {
    if productCode in boms then boms[productCode] else []
  }

  predicate NonNegativeLines(lines: seq<BomLine>) {
    forall i :: 0 <= i < |lines| ==> lines[i].requiredQty >= 0
  }

  predicate NonNegativeStock(materials: Stock) {
    forall c :: c in materials ==> materials[c].currentStock >= 0
  }

  /** The material codes the lines mention. */
  function Codes(lines: seq<BomLine>): set<string> {
    set i | 0 <= i < |lines| :: lines[i].materialCode
  }

  /** Total quantity of material `code` the lines ask for. */
  function Demand(lines: seq<BomLine>, code: string): int {
    if lines == [] then 0
    else (if lines[0].materialCode == code then lines[0].requiredQty else 0) + Demand(lines[1..], code)
  }

  // ---------------------------------------------------------------------
  // Receipt (inboundMaterial)
  // ---------------------------------------------------------------------

  /**
   * Receives `amount` units of material `code`: an unknown code is first
   * created with the given name and stock 0; the stock then grows by
   * `amount` (with Java wrap-around). There is no check on `amount`.
   */
  function Receive(materials: Stock, code: string, name: string, amount: int32): (r: Stock)
    ensures r.Keys == materials.Keys + {code}
    ensures forall c :: c in materials && c != code ==> r[c] == materials[c]
    ensures code !in materials ==> r[code] == Material(code, name, amount)
    ensures code in materials ==>
      r[code].code == materials[code].code && r[code].name == materials[code].name &&
      r[code].currentStock == Wrap(materials[code].currentStock + amount)
    ensures code in materials && InRange(materials[code].currentStock + amount) ==>
      r[code].currentStock == materials[code].currentStock + amount
  {
    var found := if code in materials then materials[code] else Material(code, name, 0);
    materials[code := found.(currentStock := Wrap(found.currentStock + amount))]
  }

  /** A series of receipts of the same code, in order. */
  function ReceiveAll(materials: Stock, code: string, name: string, amounts: seq<int32>): Stock
    decreases |amounts|
  {
    if amounts == [] then materials
    else ReceiveAll(Receive(materials, code, name, amounts[0]), code, name, amounts[1..])
  }

  function Sum(amounts: seq<int32>): int {
    if amounts == [] then 0 else amounts[0] + Sum(amounts[1..])
  }

  /**
   * After a series of receipts, the stock of the code is its starting stock
   * (0 for an unseen code) plus the sum of the amounts, taken modulo 2^32
   * as Java's `int` does; the name is the one the material was created with,
   * and every other material is unchanged.
   */
  lemma {:induction false} ReceiveAllTotals(materials: Stock, code: string, name: string, amounts: seq<int32>)
    requires code in materials || amounts != []
    ensures var r := ReceiveAll(materials, code, name, amounts);
      var start := if code in materials then materials[code].currentStock else 0;
      code in r && r.Keys == materials.Keys + {code} &&
      r[code].currentStock == Wrap(start + Sum(amounts)) &&
      r[code].name == (if code in materials then materials[code].name else name) &&
      (forall c :: c in materials && c != code ==> r[c] == materials[c])
    decreases |amounts|
  {
    if amounts != [] {
      var next := Receive(materials, code, name, amounts[0]);
      ReceiveAllTotals(next, code, name, amounts[1..]);
      var start := if code in materials then materials[code].currentStock else 0;
      assert next[code].currentStock == Wrap(start + amounts[0]);
      WrapAdd(start + amounts[0], Sum(amounts[1..]));
    }
  }

  /**
   * A receipt keeps stock non-negative exactly when it does not overflow: a
   * non-negative amount added to a non-negative stock stays non-negative
   * unless the sum passes the int maximum, where it wraps to a negative value.
   */
  lemma ReceiveKeepsStockNonNegative(materials: Stock, code: string, name: string, amount: int32)
    requires NonNegativeStock(materials) && amount >= 0
    ensures var r := Receive(materials, code, name, amount);
      NonNegativeStock(r) <==> (code !in materials || InRange(materials[code].currentStock + amount))
  {
    var r := Receive(materials, code, name, amount);
    if code in materials && !InRange(materials[code].currentStock + amount) {
      var sum := materials[code].currentStock + amount;
      assert MAX < sum < MODULUS;
      assert r[code].currentStock == sum - MODULUS;
    }
  }

  /** A receipt of one unit onto a stock at the int maximum leaves the int minimum. */
  lemma ReceiveOverflows()
    ensures var materials := map["BOLT" := Material("BOLT", "Bolt", MAX)];
      Receive(materials, "BOLT", "Bolt", 1)["BOLT"].currentStock == MIN
  {
  }

  // ---------------------------------------------------------------------
  // Availability check (isMaterialAvailable)
  // ---------------------------------------------------------------------

  /** Each line, read on its own against the current stock, has enough material. */
  predicate Available(materials: Stock, lines: seq<BomLine>)
    requires Covers(materials, lines)
  {
    forall i :: 0 <= i < |lines| ==> materials[lines[i].materialCode].currentStock >= lines[i].requiredQty
  }

  // ---------------------------------------------------------------------
  // Backflush (the loop of reportProduction over the BOM lines)
  // ---------------------------------------------------------------------

  /**
   * Consumes the lines in order; each line re-reads the stock left by the
   * lines before it, and a line whose material has less than it requires
   * stops everything with that material's name.
   */
  function Backflush(materials: Stock, lines: seq<BomLine>): (r: Result<Stock, string>)
    requires Covers(materials, lines)
    ensures r.Ok? ==> r.value.Keys == materials.Keys
    ensures r.Ok? ==> forall c :: c in materials ==>
      r.value[c] == materials[c].(currentStock := r.value[c].currentStock)
    ensures r.Ok? ==> forall c :: c in materials && c !in Codes(lines) ==> r.value[c] == materials[c]
    ensures r.Err? ==> exists c :: c in materials && c in Codes(lines) && r.error == materials[c].name
    decreases |lines|
  {
    if lines == [] then Ok(materials)
    else
      var line := lines[0];
      var mat := materials[line.materialCode];
      if mat.currentStock < line.requiredQty then Err(mat.name)
      else
        var next := materials[line.materialCode := mat.(currentStock := Wrap(mat.currentStock - line.requiredQty))];
        assert Codes(lines) == {line.materialCode} + Codes(lines[1..]) by {
          assert forall i :: 0 < i < |lines| ==> lines[i].materialCode == lines[1..][i - 1].materialCode;
        }
        Backflush(next, lines[1..])
  }

  /** The first step of the backflush, taken on its own. */
  lemma BackflushStep(materials: Stock, lines: seq<BomLine>)
    requires Covers(materials, lines) && lines != []
    ensures var line, mat := lines[0], materials[lines[0].materialCode];
      Backflush(materials, lines) ==
        if mat.currentStock < line.requiredQty then Err(mat.name)
        else Backflush(materials[line.materialCode := mat.(currentStock := Wrap(mat.currentStock - line.requiredQty))], lines[1..])
  {
  }

  /**
   * The backflush loop run on a working copy of the stock: the caller's
   * table is not touched, so a shortage leaves nothing to undo.
   */
  method RunBackflush(materials: Stock, lines: seq<BomLine>) returns (r: Result<Stock, string>)
    requires Covers(materials, lines)
    ensures r == Backflush(materials, lines)
  {
    var stock := materials;
    var i := 0;
    while i < |lines|
      invariant 0 <= i <= |lines|
      invariant stock.Keys == materials.Keys
      invariant Backflush(stock, lines[i..]) == Backflush(materials, lines)
    {
      var line := lines[i];
      var mat := stock[line.materialCode];
      assert lines[i..][0] == line && lines[i..][1..] == lines[i + 1..];
      BackflushStep(stock, lines[i..]);
      if mat.currentStock < line.requiredQty {
        return Err(mat.name);
      }
      stock := stock[line.materialCode := mat.(currentStock := Wrap(mat.currentStock - line.requiredQty))];
      i := i + 1;
    }
    return Ok(stock);
  }

  // ---------------------------------------------------------------------
  // What the backflush does, in terms of total demand per material
  // ---------------------------------------------------------------------

  /** Every material the lines use has at least its total demand in stock. */
  predicate Sufficient(materials: Stock, lines: seq<BomLine>)
    requires Covers(materials, lines)
  {
    forall c :: c in Codes(lines) ==> c in materials && materials[c].currentStock >= Demand(lines, c)
  }

  lemma {:induction false} DemandFacts(lines: seq<BomLine>, code: string)
    requires NonNegativeLines(lines)
    ensures Demand(lines, code) >= 0
    ensures code !in Codes(lines) ==> Demand(lines, code) == 0
    decreases |lines|
  {
    if lines != [] {
      DemandFacts(lines[1..], code);
      assert Codes(lines) == {lines[0].materialCode} + Codes(lines[1..]) by {
        assert forall i :: 0 < i < |lines| ==> lines[i].materialCode == lines[1..][i - 1].materialCode;
      }
    }
  }

  lemma CodesCons(lines: seq<BomLine>)
    requires lines != []
    ensures Codes(lines) == {lines[0].materialCode} + Codes(lines[1..])
  {
    assert forall i :: 0 < i < |lines| ==> lines[i].materialCode == lines[1..][i - 1].materialCode;
  }

  /**
   * Sufficiency after the first line: the lines are covered exactly when the
   * first one is, and the rest are covered by what it leaves.
   */
  lemma SufficientStep(materials: Stock, lines: seq<BomLine>)
    requires Covers(materials, lines) && NonNegativeLines(lines) && lines != []
    requires materials[lines[0].materialCode].currentStock >= lines[0].requiredQty
    ensures var c0, q := lines[0].materialCode, lines[0].requiredQty;
      var next := materials[c0 := materials[c0].(currentStock := Wrap(materials[c0].currentStock - q))];
      Sufficient(materials, lines) <==> Sufficient(next, lines[1..])
  {
    var c0, q := lines[0].materialCode, lines[0].requiredQty;
    var rest := lines[1..];
    var next := materials[c0 := materials[c0].(currentStock := Wrap(materials[c0].currentStock - q))];
    assert next[c0].currentStock == materials[c0].currentStock - q;
    CodesCons(lines);
    assert Covers(next, rest);
    if Sufficient(materials, lines) {
      forall c | c in Codes(rest) ensures next[c].currentStock >= Demand(rest, c) {
        assert c in Codes(lines);
      }
    }
    if Sufficient(next, rest) {
      forall c | c in Codes(lines) ensures materials[c].currentStock >= Demand(lines, c) {
        DemandFacts(rest, c);
        if c != c0 {
          assert c in Codes(rest);
        }
      }
    }
  }

  /** A first line that finds too little stock means the lines are not covered. */
  lemma InsufficientHead(materials: Stock, lines: seq<BomLine>)
    requires Covers(materials, lines) && NonNegativeLines(lines) && lines != []
    requires materials[lines[0].materialCode].currentStock < lines[0].requiredQty
    ensures !Sufficient(materials, lines)
  {
    CodesCons(lines);
    DemandFacts(lines[1..], lines[0].materialCode);
  }

  /**
   * With non-negative BOM quantities, the backflush succeeds exactly when
   * every material it uses holds at least the lines' total demand for it.
   */
  lemma {:induction false} BackflushSucceedsIff(materials: Stock, lines: seq<BomLine>)
    requires Covers(materials, lines) && NonNegativeLines(lines)
    ensures Backflush(materials, lines).Ok? <==> Sufficient(materials, lines)
    decreases |lines|
  {
    if lines != [] {
      var c0, q := lines[0].materialCode, lines[0].requiredQty;
      BackflushStep(materials, lines);
      if materials[c0].currentStock >= q {
        var next := materials[c0 := materials[c0].(currentStock := Wrap(materials[c0].currentStock - q))];
        SufficientStep(materials, lines);
        BackflushSucceedsIff(next, lines[1..]);
      } else {
        InsufficientHead(materials, lines);
      }
    }
  }

  /**
   * A successful backflush takes from every material exactly the lines'
   * total demand for it.
   */
  lemma {:induction false} BackflushTakesDemand(materials: Stock, lines: seq<BomLine>)
    requires Covers(materials, lines) && NonNegativeLines(lines)
    requires Backflush(materials, lines).Ok?
    ensures forall c :: c in materials ==>
      Backflush(materials, lines).value[c].currentStock == materials[c].currentStock - Demand(lines, c)
    decreases |lines|
  {
    if lines == [] {
    } else {
      var line := lines[0];
      var c0 := line.materialCode;
      var mat := materials[c0];
      var next := materials[c0 := mat.(currentStock := Wrap(mat.currentStock - line.requiredQty))];
      assert next[c0].currentStock == mat.currentStock - line.requiredQty;
      BackflushTakesDemand(next, lines[1..]);
    }
  }

  /** A material short for the rest of the lines, after the first took its share, is short for all of them. */
  lemma ShortAfterHead(materials: Stock, lines: seq<BomLine>, c: string)
    requires Covers(materials, lines) && NonNegativeLines(lines) && lines != []
    requires materials[lines[0].materialCode].currentStock >= lines[0].requiredQty
    requires var c0, q := lines[0].materialCode, lines[0].requiredQty;
      var next := materials[c0 := materials[c0].(currentStock := Wrap(materials[c0].currentStock - q))];
      c in next && c in Codes(lines[1..]) && next[c].currentStock < Demand(lines[1..], c)
    ensures c in materials && c in Codes(lines) && materials[c].currentStock < Demand(lines, c)
  {
    CodesCons(lines);
  }

  /**
   * A shortage names a material whose stock is below the lines' total
   * demand for it.
   */
  lemma {:induction false} BackflushShortageNamesShortMaterial(materials: Stock, lines: seq<BomLine>)
    requires Covers(materials, lines) && NonNegativeLines(lines)
    requires Backflush(materials, lines).Err?
    ensures exists c :: (c in materials && c in Codes(lines) &&
      materials[c].currentStock < Demand(lines, c) &&
      Backflush(materials, lines).error == materials[c].name)
    decreases |lines|
  {
    var c0, q := lines[0].materialCode, lines[0].requiredQty;
    BackflushStep(materials, lines);
    if materials[c0].currentStock < q {
      CodesCons(lines);
      DemandFacts(lines[1..], c0);
      assert materials[c0].currentStock < Demand(lines, c0);
    } else {
      var next := materials[c0 := materials[c0].(currentStock := Wrap(materials[c0].currentStock - q))];
      BackflushShortageNamesShortMaterial(next, lines[1..]);
      var c :| c in next && c in Codes(lines[1..]) && next[c].currentStock < Demand(lines[1..], c) &&
        Backflush(next, lines[1..]).error == next[c].name;
      ShortAfterHead(materials, lines, c);
      assert next[c].name == materials[c].name;
    }
  }

  /**
   * With non-negative BOM quantities, a successful backflush leaves every
   * material it touched at stock >= 0 and every other one as it was; so a
   * table with no negative stock keeps none.
   */
  lemma BackflushKeepsStockNonNegative(materials: Stock, lines: seq<BomLine>)
    requires Covers(materials, lines) && NonNegativeLines(lines)
    requires Backflush(materials, lines).Ok?
    ensures forall c :: c in Codes(lines) ==> Backflush(materials, lines).value[c].currentStock >= 0
    ensures NonNegativeStock(materials) ==> NonNegativeStock(Backflush(materials, lines).value)
  {
    BackflushSucceedsIff(materials, lines);
    BackflushTakesDemand(materials, lines);
  }

  // ---------------------------------------------------------------------
  // The availability check against the backflush
  // ---------------------------------------------------------------------

  lemma {:induction false} DemandCoversLine(lines: seq<BomLine>, i: nat)
    requires NonNegativeLines(lines) && i < |lines|
    ensures Demand(lines, lines[i].materialCode) >= lines[i].requiredQty
    decreases |lines|
  {
    DemandFacts(lines[1..], lines[i].materialCode);
    if i > 0 {
      DemandCoversLine(lines[1..], i - 1);
    }
  }

  /** Lines that each name a different material. */
  predicate DistinctMaterials(lines: seq<BomLine>) {
    forall i, j :: 0 <= i < j < |lines| ==> lines[i].materialCode != lines[j].materialCode
  }

  /**
   * A backflush that succeeds would have passed the availability check:
   * each line's own quantity is part of its material's total demand.
   */
  lemma BackflushedWasAvailable(materials: Stock, lines: seq<BomLine>)
    requires Covers(materials, lines) && NonNegativeLines(lines)
    requires Backflush(materials, lines).Ok?
    ensures Available(materials, lines)
  {
    BackflushSucceedsIff(materials, lines);
    forall i | 0 <= i < |lines|
      ensures materials[lines[i].materialCode].currentStock >= lines[i].requiredQty
    {
      DemandCoversLine(lines, i);
    }
  }

  /**
   * With distinct materials, once the first line has taken its share the
   * rest of the lines see the same stock as before, so the rest pass the
   * check afterwards exactly when all the lines passed it before.
   */
  lemma AvailableAfterHead(materials: Stock, lines: seq<BomLine>)
    requires Covers(materials, lines) && DistinctMaterials(lines) && lines != []
    requires materials[lines[0].materialCode].currentStock >= lines[0].requiredQty
    ensures var c0, q := lines[0].materialCode, lines[0].requiredQty;
      var next := materials[c0 := materials[c0].(currentStock := Wrap(materials[c0].currentStock - q))];
      Covers(next, lines[1..]) && DistinctMaterials(lines[1..]) &&
      (Available(next, lines[1..]) <==> Available(materials, lines))
  {
    var c0, q := lines[0].materialCode, lines[0].requiredQty;
    var next := materials[c0 := materials[c0].(currentStock := Wrap(materials[c0].currentStock - q))];
    var rest := lines[1..];
    forall i | 0 <= i < |rest|
      ensures rest[i] == lines[i + 1] && rest[i].materialCode in next
      ensures next[rest[i].materialCode] == materials[lines[i + 1].materialCode]
    {
      assert lines[0].materialCode != lines[i + 1].materialCode;
    }
    assert forall i, j :: 0 <= i < j < |rest| ==> rest[i].materialCode != rest[j].materialCode by {
      forall i, j | 0 <= i < j < |rest| ensures rest[i].materialCode != rest[j].materialCode {
        assert lines[i + 1].materialCode != lines[j + 1].materialCode;
      }
    }
  }

  /**
   * When no two lines share a material, the availability check and the
   * backflush agree, whatever the sign of the quantities: each line then
   * reads its material's stock untouched by the lines before it.
   */
  lemma {:induction false} AvailableIffBackflushWhenDistinct(materials: Stock, lines: seq<BomLine>)
    requires Covers(materials, lines) && DistinctMaterials(lines)
    ensures Available(materials, lines) <==> Backflush(materials, lines).Ok?
    decreases |lines|
  {
    if lines != [] {
      var c0, q := lines[0].materialCode, lines[0].requiredQty;
      BackflushStep(materials, lines);
      if materials[c0].currentStock >= q {
        var next := materials[c0 := materials[c0].(currentStock := Wrap(materials[c0].currentStock - q))];
        AvailableAfterHead(materials, lines);
        AvailableIffBackflushWhenDistinct(next, lines[1..]);
      }
    }
  }

  /**
   * Two lines on the same material: each passes the availability check on
   * its own, but the second finds the stock the first one left and fails.
   */
  lemma AvailableYetShort()
    ensures var materials := map["BOLT" := Material("BOLT", "Bolt", 2)];
      var lines := [BomLine("BOLT", 2), BomLine("BOLT", 2)];
      Available(materials, lines) && Backflush(materials, lines) == Err("Bolt")
  {
    var materials := map["BOLT" := Material("BOLT", "Bolt", 2)];
    var lines := [BomLine("BOLT", 2), BomLine("BOLT", 2)];
    var next := materials["BOLT" := Material("BOLT", "Bolt", 0)];
    assert Backflush(materials, lines) == Backflush(next, lines[1..]);
  }
}
