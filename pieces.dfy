/** Piece kinds, the piece record, the per-kind quota and the combat table. */
module Pieces {

  /** A piece kind. Kinds stay plain integers because the belief update compares them with `min`;
      the order is strongest first. */
  type Kind = int

  const DummyHeadquarters: Kind := -1
  const Taisho: Kind := 0
  const Chujo: Kind := 1
  const Shosho: Kind := 2
  const Plane: Kind := 3
  const Tank: Kind := 4
  const Taisa: Kind := 5
  const Chusa: Kind := 6
  const Shosa: Kind := 7
  const Taii: Kind := 8
  const Chui: Kind := 9
  const Shoi: Kind := 10
  const Engineer: Kind := 11
  const Cavalry: Kind := 12
  const Spy: Kind := 13
  const Mine: Kind := 14
  const Flag: Kind := 15
  const NumKinds: int := 16
  /** Marks an empty cell, and "no belief yet" in a supposition. */
  const None: Kind := 99

  /** One cell of the board: the true kind, the opponent's belief about it, and the owner (0 or 1). */
  datatype Piece = Piece(kind: Kind, supposition: Kind, owner: int) {

    predicate IsPiece() {
      Taisho <= kind <= Flag
    }

    /** The three general ranks. */
    predicate IsShokan() {
      Taisho <= kind <= Shosho
    }

    /** The three field-officer ranks. */
    predicate IsSakan() {
      Taisa <= kind <= Shosa
    }

    predicate IsNotMovable() {
      kind == Flag || kind == Mine
    }

    predicate IsMovable() {
      IsPiece() && kind != Flag && kind != Mine
    }
  }

  lemma MovableKinds(p: Piece)
    ensures p.IsMovable() <==> Taisho <= p.kind <= Spy
    ensures p.IsShokan() ==> p.IsMovable()
    ensures p.IsSakan() ==> p.IsMovable()
    ensures p.IsPiece() ==> (p.IsMovable() <==> !p.IsNotMovable())
    ensures p.kind == None ==> !p.IsPiece() && !p.IsNotMovable()
  {
  }

  /** Number of pieces of each kind a side starts with. */
  const NumEachPiece: seq<nat> := [1, 1, 1, 2, 2, 1, 1, 1, 2, 2, 2, 2, 1, 1, 2, 1]
  const NumPieces: nat := 23

  function Sum(s: seq<nat>): nat {
    if s == [] then 0 else s[0] + Sum(s[1..])
  }

  lemma QuotaSumsToNumPieces()
    ensures |NumEachPiece| == NumKinds
    ensures Sum(NumEachPiece) == NumPieces
  {
    assert Sum([1]) == 1;
    assert Sum([2, 1]) == 3;
    assert Sum([1, 2, 1]) == 4;
    assert Sum([1, 1, 2, 1]) == 5;
    assert Sum([2, 1, 1, 2, 1]) == 7;
    assert Sum([2, 2, 1, 1, 2, 1]) == 9;
    assert Sum([2, 2, 2, 1, 1, 2, 1]) == 11;
    assert Sum([2, 2, 2, 2, 1, 1, 2, 1]) == 13;
    assert Sum([1, 2, 2, 2, 2, 1, 1, 2, 1]) == 14;
    assert Sum([1, 1, 2, 2, 2, 2, 1, 1, 2, 1]) == 15;
    assert Sum([1, 1, 1, 2, 2, 2, 2, 1, 1, 2, 1]) == 16;
    assert Sum([2, 1, 1, 1, 2, 2, 2, 2, 1, 1, 2, 1]) == 18;
    assert Sum([2, 2, 1, 1, 1, 2, 2, 2, 2, 1, 1, 2, 1]) == 20;
    assert Sum([1, 2, 2, 1, 1, 1, 2, 2, 2, 2, 1, 1, 2, 1]) == 21;
    assert Sum([1, 1, 2, 2, 1, 1, 1, 2, 2, 2, 2, 1, 1, 2, 1]) == 22;
    assert Sum([1, 1, 1, 2, 2, 1, 1, 1, 2, 2, 2, 2, 1, 1, 2, 1]) == 23;
  }

  datatype BattleResult = Lose | Win | Draw

  /** Result for the attacker (row) against the defender (column); kinds Taisho..Mine only. */
  const BattleTable: seq<seq<BattleResult>> := [
    [Draw, Win, Win, Win, Win, Win, Win, Win, Win, Win, Win, Win, Win, Lose, Lose],
    [Lose, Draw, Win, Win, Win, Win, Win, Win, Win, Win, Win, Win, Win, Win, Lose],
    [Lose, Lose, Draw, Win, Win, Win, Win, Win, Win, Win, Win, Win, Win, Win, Lose],
    [Lose, Lose, Lose, Draw, Win, Win, Win, Win, Win, Win, Win, Win, Win, Win, Win],
    [Lose, Lose, Lose, Lose, Draw, Win, Win, Win, Win, Win, Win, Win, Win, Win, Lose],
    [Lose, Lose, Lose, Lose, Lose, Draw, Win, Win, Win, Win, Win, Win, Win, Win, Lose],
    [Lose, Lose, Lose, Lose, Lose, Lose, Draw, Win, Win, Win, Win, Win, Win, Win, Lose],
    [Lose, Lose, Lose, Lose, Lose, Lose, Lose, Draw, Win, Win, Win, Win, Win, Win, Lose],
    [Lose, Lose, Lose, Lose, Lose, Lose, Lose, Lose, Draw, Win, Win, Win, Win, Win, Lose],
    [Lose, Lose, Lose, Lose, Lose, Lose, Lose, Lose, Lose, Draw, Win, Win, Win, Win, Lose],
    [Lose, Lose, Lose, Lose, Lose, Lose, Lose, Lose, Lose, Lose, Draw, Win, Win, Win, Lose],
    [Lose, Lose, Lose, Lose, Lose, Lose, Lose, Lose, Lose, Lose, Lose, Draw, Lose, Win, Win],
    [Lose, Lose, Lose, Lose, Lose, Lose, Lose, Lose, Lose, Lose, Lose, Win, Draw, Win, Lose],
    [Win, Lose, Lose, Lose, Lose, Lose, Lose, Lose, Lose, Lose, Lose, Lose, Lose, Draw, Lose],
    [Win, Win, Win, Lose, Win, Win, Win, Win, Win, Win, Win, Lose, Win, Win, Draw]
  ]

  /** The table has rows and columns for Taisho..Mine; the flag has none. */
  predicate InTable(k: Kind) {
    Taisho <= k <= Mine
  }

  function Lookup(attacker: Kind, defender: Kind): BattleResult
    requires InTable(attacker) && InTable(defender)
  {
    BattleTable[attacker][defender]
  }
}

module TableFacts {
  import opened Pieces

  /** The combat table is antisymmetric with an all-draw diagonal. */
  lemma TableIsAntisymmetric(a: Kind, b: Kind)
    requires InTable(a) && InTable(b)
    ensures Lookup(a, a) == Draw
    ensures Lookup(a, b) == Win <==> Lookup(b, a) == Lose
    ensures Lookup(a, b) == Draw <==> Lookup(b, a) == Draw
  {
    assert a == 0 || a == 1 || a == 2 || a == 3 || a == 4 || a == 5 || a == 6 || a == 7 ||
           a == 8 || a == 9 || a == 10 || a == 11 || a == 12 || a == 13 || a == 14;
    assert b == 0 || b == 1 || b == 2 || b == 3 || b == 4 || b == 5 || b == 6 || b == 7 ||
           b == 8 || b == 9 || b == 10 || b == 11 || b == 12 || b == 13 || b == 14;
  }
}
