// The output dividers of the ICS307-03: the stride of the search and the encoder's grid.

module OutputDivider {

  const LARGEST: nat := 8232

  /** The step the search takes from one output divider down to the next. */
  function Next(od: nat): nat
    requires od > 1
  {
    if od <= 1030 then od - 1
    else if od <= 2060 then od - 2
    else if od <= 4120 then od - 4
    else od - 8
  }

  /** The output dividers the search visits from `od` down. */
  ghost function Descent(od: nat): seq<nat>
    decreases od
  {
    if od <= 1 then [] else [od] + Descent(Next(od))
  }

  /** The dividers the search visits, told by their size and what divides them. */
  predicate OnGrid(d: nat) {
    || 2 <= d <= 1030
    || (d <= 2060 && d > 1030 && d % 2 == 0)
    || (d <= 4120 && d > 2060 && d % 4 == 0)
    || (d <= LARGEST && d > 4120 && d % 8 == 0)
  }

  function Scale(z: nat): nat {
    match z
    case 0 => 1
    case 1 => 2
    case 2 => 4
    case _ => 8
  }

  /** The general formula of the encoder: X, Y and Z stand for the divider d. */
  predicate Form(d: nat, x: nat, y: nat, z: nat) {
    x < 512 && y < 2 && z < 4 && d == ((x + 3) * 2 + y) * Scale(z)
  }

  /** The encoder has bits for the divider: by its table up to 37, by the formula above. */
  ghost predicate Encodable(d: nat) {
    2 <= d <= 37 || (d >= 38 && exists x, y, z :: Form(d, x, y, z))
  }

  lemma NextOnGrid(od: nat)
    requires od > 1 && OnGrid(od)
    ensures Next(od) == 1 || (Next(od) > 1 && OnGrid(Next(od)))
  {
  }

  lemma LargestOnGrid()
    ensures LARGEST > 1 && OnGrid(LARGEST)
  {
  }

  lemma NextDescends(od: nat)
    requires od > 1
    ensures 1 <= Next(od) < od
  {
  }

  /** No divider lies between one and the next. */
  lemma NextIsNearest(od: nat, d: nat)
    requires od > 1 && OnGrid(od) && OnGrid(d) && d < od
    ensures d <= Next(od)
  {
  }

  lemma AtLeastTwo(d: nat)
    ensures OnGrid(d) ==> 2 <= d <= LARGEST
  {
  }

  lemma {:induction false} DescentIsGrid(od: nat, d: nat)
    requires od == 1 || (od > 1 && OnGrid(od))
    ensures d in Descent(od) <==> OnGrid(d) && d <= od
    decreases od
  {
    hide OnGrid;
    AtLeastTwo(d);
    if od > 1 {
      NextOnGrid(od);
      DescentIsGrid(Next(od), d);
      if OnGrid(d) && d < od { NextIsNearest(od, d); }
    }
  }

  lemma FormAt(d: nat, s: nat, z: nat)
    requires z < 4 && s == Scale(z) && d % s == 0 && 6 <= d / s <= 1029
    ensures exists x, y, z :: Form(d, x, y, z)
  {
    var n := d / s;
    assert Form(d, n / 2 - 3, n % 2, z);
  }

  lemma GridHasForm(d: nat)
    requires d >= 38 && OnGrid(d)
    ensures exists x, y, z :: Form(d, x, y, z)
  {
    if d <= 1029 {
      FormAt(d, 1, 0);
    } else if d <= 2058 {
      FormAt(d, 2, 1);
    } else if d <= 4116 {
      FormAt(d, 4, 2);
    } else {
      FormAt(d, 8, 3);
    }
  }

  lemma FormIsOnGrid(d: nat, x: nat, y: nat, z: nat)
    requires Form(d, x, y, z)
    ensures OnGrid(d)
  {
  }

  /** The search visits a divider exactly when the encoder can encode it. */
  lemma StrideMatchesEncoder(d: nat)
    ensures d in Descent(LARGEST) <==> Encodable(d)
  {
    DescentIsGrid(LARGEST, d);
    if d >= 38 && OnGrid(d) {
      GridHasForm(d);
    }
    if d >= 38 && Encodable(d) {
      var x, y, z :| Form(d, x, y, z);
      FormIsOnGrid(d, x, y, z);
    }
  }
}
