/** Proyecto/js/juegocartas.js: the board sizes offered to the player, and the
    integer core of `crearTablero`: the pool of card values, the loop that
    deals one value to each card, and the card ids.

    The body of the file's own `range` is identical to the one in
    utilidades.js; the model uses Utilidades.Range for both. The DOM work of
    `crearTablero` (finding `tablero`, creating and appending each `span`) is
    not part of this model: a method returns the cards it would append. */
module JuegoCartas {
  import opened Wrappers
  import opened Utilidades

  const MAX_DIM: int := 8

  /** `dimensiones = range(2, MAX_DIM+1, 2)`. */
  function Dimensiones(): (r: seq<int>)
    ensures r == [2, 4, 6, 8]
  {
    RangeBetween(2, MAX_DIM + 1, 2);
    var s := Range(2, Some(MAX_DIM + 1), 2).elems;
    assert |s| == 4;
    assert s[0] == 2 && s[1] == 4 && s[2] == 6 && s[3] == 8;
    s
  }

  /** The offered board sizes are all even, at least 2 and none above MAX_DIM. */
  lemma DimensionesPares()
    ensures forall d :: d in Dimensiones() ==> d % 2 == 0 && 2 <= d <= MAX_DIM
  {
    var s := Dimensiones();
    forall d | d in s ensures d % 2 == 0 && 2 <= d <= MAX_DIM {
      assert d == 2 || d == 4 || d == 6 || d == 8;
    }
  }

  // ---------------------------------------------------------------------------
  // The pool of values
  // ---------------------------------------------------------------------------

  /** The counts of 1, 2, ..., h: each appears once, nothing else does. */
  lemma {:induction false} CountsFromOne(h: nat, v: int)
    ensures multiset(seq(h, i => 1 + i))[v] == if 1 <= v <= h then 1 else 0
  {
    if h > 0 {
      CountsFromOne(h - 1, v);
      assert seq(h, i => 1 + i) == seq(h - 1, i => 1 + i) + [h];
    }
  }

  /** `valores = range(1, totalCartas/2 + 1)` followed by `valores.concat(valores)`.
      `totalCartas/2` is exact division; `parseInt` truncates it, so an odd
      total yields the values 1 .. totalCartas/2 rounded down. */
  function ValoresIniciales(dimension: int): (r: seq<int>)
    requires dimension >= 2
    ensures |r| == 2 * (dimension * dimension / 2) && r[..|r| / 2] == r[|r| / 2..]
  {
    assert dimension * dimension >= 4;
    var mitad := Range(1, Some(dimension * dimension / 2 + 1), 1).elems;
    mitad + mitad
  }

  /** The pool as a sequence: 1 .. mitad, twice. */
  lemma ValoresInicialesShape(dimension: int)
    requires dimension >= 2
    ensures var mitad := dimension * dimension / 2;
      mitad >= 2 && ValoresIniciales(dimension) == seq(mitad, i => 1 + i) + seq(mitad, i => 1 + i)
  {
    var mitad := dimension * dimension / 2;
    assert dimension * dimension >= 4;
    RangeBetween(1, mitad + 1, 1);
    assert Range(1, Some(mitad + 1), 1).elems == seq(mitad, i => 1 + i);
  }

  /** The pool holds each of 1 .. totalCartas/2 exactly twice and nothing
      else; for an even dimension d that is d² values, one per card. */
  lemma ValoresInicialesPorPares(dimension: int)
    requires dimension >= 2
    ensures var pool, mitad := ValoresIniciales(dimension), dimension * dimension / 2;
      && |pool| == 2 * mitad
      && (dimension % 2 == 0 ==> |pool| == dimension * dimension)
      && forall v :: multiset(pool)[v] == if 1 <= v <= mitad then 2 else 0
  {
    var mitad := dimension * dimension / 2;
    ValoresInicialesShape(dimension);
    forall v ensures multiset(ValoresIniciales(dimension))[v] == if 1 <= v <= mitad then 2 else 0 {
      CountsFromOneTwice(mitad, v);
    }
    if dimension % 2 == 0 {
      EvenSquareHalves(dimension);
    }
  }

  /** 1 .. h written twice holds each of its values twice. */
  lemma CountsFromOneTwice(h: nat, v: int)
    ensures var s := seq(h, i => 1 + i);
      multiset(s + s)[v] == if 1 <= v <= h then 2 else 0
  {
    CountsFromOne(h, v);
  }

  /** The square of an even number halves exactly. */
  lemma EvenSquareHalves(d: int)
    requires d % 2 == 0
    ensures 2 * (d * d / 2) == d * d
  {
    var m := d / 2;
    assert d * d == 2 * (2 * m * m);
  }

  // ---------------------------------------------------------------------------
  // One draw
  // ---------------------------------------------------------------------------

  /** Every draw of `Math.random()` lies in [0, 1). */
  predicate Draws(azar: seq<real>)
  {
    forall j :: 0 <= j < |azar| ==> 0.0 <= azar[j] < 1.0
  }

  /** `parseInt(Math.random() * valores.length)`, the draw r supplied by the
      caller: an index of the pool while the pool is non-empty, 0 once it is
      empty. */
  function Indice(r: real, longitud: nat): (k: nat)
    requires 0.0 <= r < 1.0
    ensures longitud > 0 ==> k < longitud
    ensures longitud == 0 ==> k == 0
  {
    ScaledDrawBounds(r, longitud);
    (r * (longitud as real)).Floor
  }

  /** A draw in [0, 1) scaled by a length n lies in [0, n), or is 0 for n = 0. */
  lemma ScaledDrawBounds(r: real, n: nat)
    requires 0.0 <= r < 1.0
    ensures 0.0 <= r * (n as real) <= n as real
    ensures n > 0 ==> r * (n as real) < n as real
  {
    var x := n as real;
    assert 0.0 <= r * x;
    assert x - r * x == (1.0 - r) * x;
  }

  /** `carta.value = valores[k]`: a value of the pool, undefined exactly when
      the pool is empty. */
  function Drawn(valores: seq<int>, r: real): (v: Option<int>)
    requires 0.0 <= r < 1.0
    ensures v.Some? <==> valores != []
    ensures v.Some? ==> v.value in valores
  {
    var k := Indice(r, |valores|);
    if k < |valores| then Some(valores[k]) else None
  }

  /** The pool after `valores.splice(k)` AS WRITTEN: its first k entries. A
      non-empty pool always gets shorter, by one or by more, and the part cut
      off starts with the value just drawn. */
  function SpliceTail(valores: seq<int>, r: real): (resto: seq<int>)
    requires 0.0 <= r < 1.0
    ensures |resto| <= |valores| && resto == valores[..|resto|]
    ensures valores != [] ==> |resto| < |valores| && Drawn(valores, r) == Some(valores[|resto|])
  {
    valores[..Indice(r, |valores|)]
  }

  /** The pool after `valores.splice(k, 1)`, as evidently intended: the drawn
      value leaves the pool and every other entry stays. */
  function SpliceOne(valores: seq<int>, r: real): (resto: seq<int>)
    requires 0.0 <= r < 1.0
    ensures valores != [] ==> |resto| == |valores| - 1
    ensures valores == [] ==> resto == []
  {
    var k := Indice(r, |valores|);
    if k < |valores| then valores[..k] + valores[k + 1..] else valores
  }

  /** What `splice(k, 1)` removes is exactly the value drawn: the pool before
      is the pool after plus that one value. */
  lemma SpliceOneRemovesDrawn(valores: seq<int>, r: real)
    requires 0.0 <= r < 1.0 && valores != []
    ensures multiset(valores) == multiset(SpliceOne(valores, r)) + multiset{Drawn(valores, r).value}
  {
    var k := Indice(r, |valores|);
    assert valores == valores[..k] + [valores[k]] + valores[k + 1..];
  }

  // ---------------------------------------------------------------------------
  // The deal loop
  // ---------------------------------------------------------------------------

  /** The values present in a sequence of possibly undefined card values. */
  function Definidos(valores: seq<Option<int>>): (s: seq<int>)
    ensures |s| <= |valores|
  {
    if valores == [] then []
    else
      var n := |valores| - 1;
      Definidos(valores[..n]) + (if valores[n].Some? then [valores[n].value] else [])
  }

  /** The pool after the first n passes of the loop AS WRITTEN. */
  function PoolSplicingTail(pool: seq<int>, azar: seq<real>, n: nat): (r: seq<int>)
    requires Draws(azar) && n <= |azar|
    ensures |r| <= |pool| && r == pool[..|r|]
  {
    if n == 0 then pool else SpliceTail(PoolSplicingTail(pool, azar, n - 1), azar[n - 1])
  }

  /** The values the loop AS WRITTEN gives the first n cards: card j gets a
      value drawn from the pool the earlier passes left. */
  function DealSplicingTail(pool: seq<int>, azar: seq<real>, n: nat): (r: seq<Option<int>>)
    requires Draws(azar) && n <= |azar|
    ensures |r| == n
    ensures forall j :: 0 <= j < n && r[j].Some? ==> r[j].value in pool
  {
    if n == 0 then []
    else DealSplicingTail(pool, azar, n - 1) + [Drawn(PoolSplicingTail(pool, azar, n - 1), azar[n - 1])]
  }

  /** Card j of the deal as written draws from the pool after j passes. */
  lemma {:induction false} DealSplicingTailAt(pool: seq<int>, azar: seq<real>, n: nat, j: nat)
    requires Draws(azar) && j < n <= |azar|
    ensures DealSplicingTail(pool, azar, n)[j] == Drawn(PoolSplicingTail(pool, azar, j), azar[j])
  {
    if j < n - 1 {
      DealSplicingTailAt(pool, azar, n - 1, j);
    }
  }

  /** As written, a later pool is a prefix of an earlier one, and while it is
      not empty each pass has cut at least one entry. */
  lemma {:induction false} PoolSplicingTailShrinks(pool: seq<int>, azar: seq<real>, i: nat, j: nat)
    requires Draws(azar) && i <= j <= |azar|
    ensures var antes, despues := PoolSplicingTail(pool, azar, i), PoolSplicingTail(pool, azar, j);
      && |despues| <= |antes| && despues == antes[..|despues|]
      && (despues == [] || |despues| + (j - i) <= |antes|)
  {
    if i < j {
      PoolSplicingTailShrinks(pool, azar, i, j - 1);
    }
  }

  /** As written, only the first |pool| cards can get a value, each value
      comes from the pool, and once one card gets none (the pool is empty)
      no later card gets one. */
  lemma DealSplicingTailRunsDry(pool: seq<int>, azar: seq<real>)
    requires Draws(azar)
    ensures var r := DealSplicingTail(pool, azar, |azar|);
      && (forall j :: 0 <= j < |r| && r[j].Some? ==> j < |pool| && r[j].value in pool)
      && (forall i, j :: 0 <= i < j < |r| && r[i] == None ==> r[j] == None)
  {
    var r := DealSplicingTail(pool, azar, |azar|);
    forall j | 0 <= j < |r| && r[j].Some? ensures j < |pool| && r[j].value in pool {
      DealSplicingTailAt(pool, azar, |azar|, j);
      PoolSplicingTailShrinks(pool, azar, 0, j);
    }
    forall i, j | 0 <= i < j < |r| && r[i] == None ensures r[j] == None {
      DealSplicingTailAt(pool, azar, |azar|, i);
      DealSplicingTailAt(pool, azar, |azar|, j);
      PoolSplicingTailShrinks(pool, azar, i, j);
    }
  }

  /** The pool of a 2 × 2 board. */
  lemma ValoresInicialesDos()
    ensures ValoresIniciales(2) == [1, 2, 1, 2]
  {
    RangeBetween(1, 3, 1);
    assert Range(1, Some(3), 1).elems == [1, 2];
  }

  /** A draw of 0.5 takes the middle of the pool, rounded down. */
  lemma DrawnMitad()
    ensures Drawn([1, 2, 1, 2], 0.5) == Some(1) && SpliceTail([1, 2, 1, 2], 0.5) == [1, 2]
    ensures Drawn([1, 2], 0.5) == Some(2) && SpliceTail([1, 2], 0.5) == [1]
    ensures Drawn([1], 0.5) == Some(1) && SpliceTail([1], 0.5) == []
    ensures Drawn([], 0.5) == None
  {
    assert Indice(0.5, 4) == 2 && Indice(0.5, 2) == 1 && Indice(0.5, 1) == 0;
  }

  /** A board of 2 × 2 dealt as written with every draw 0.5: the pool
      [1, 2, 1, 2] is cut to [1, 2], then [1], then [], and the fourth card
      gets no value. */
  lemma DealSplicingTailCounterexample()
    ensures ValoresIniciales(2) == [1, 2, 1, 2]
    ensures DealSplicingTail(ValoresIniciales(2), [0.5, 0.5, 0.5, 0.5], 4)
            == [Some(1), Some(2), Some(1), None]
  {
    ValoresInicialesDos();
    DrawnMitad();
    var pool, azar := [1, 2, 1, 2], [0.5, 0.5, 0.5, 0.5];
    assert PoolSplicingTail(pool, azar, 1) == [1, 2];
    assert PoolSplicingTail(pool, azar, 2) == [1];
    assert PoolSplicingTail(pool, azar, 3) == [];
    assert DealSplicingTail(pool, azar, 1) == [Some(1)];
    assert DealSplicingTail(pool, azar, 2) == [Some(1), Some(2)];
    assert DealSplicingTail(pool, azar, 3) == [Some(1), Some(2), Some(1)];
  }

  /** The pool after the first n passes of the loop with `splice(k, 1)`. */
  function PoolRemovingOne(pool: seq<int>, azar: seq<real>, n: nat): (r: seq<int>)
    requires Draws(azar) && n <= |azar|
    ensures |r| == if n <= |pool| then |pool| - n else 0
  {
    if n == 0 then pool else SpliceOne(PoolRemovingOne(pool, azar, n - 1), azar[n - 1])
  }

  /** The values the loop with `splice(k, 1)` gives the first n cards. */
  function DealRemovingOne(pool: seq<int>, azar: seq<real>, n: nat): (r: seq<Option<int>>)
    requires Draws(azar) && n <= |azar|
    ensures |r| == n
    ensures forall j :: 0 <= j < n ==> (r[j].Some? <==> j < |pool|)
  {
    if n == 0 then []
    else DealRemovingOne(pool, azar, n - 1) + [Drawn(PoolRemovingOne(pool, azar, n - 1), azar[n - 1])]
  }

  /** One pass of the conservation argument: a drawn value x moves from the
      pool to the dealt cards. */
  lemma ConservesStep(pool: seq<int>, previo: seq<Option<int>>, antes: seq<int>, despues: seq<int>, x: int)
    requires multiset(pool) == multiset(Definidos(previo)) + multiset(antes)
    requires multiset(antes) == multiset(despues) + multiset{x}
    ensures multiset(pool) == multiset(Definidos(previo + [Some(x)])) + multiset(despues)
  {
    var d := multiset(Definidos(previo));
    assert multiset(Definidos(previo + [Some(x)])) == d + multiset{x} by {
      var r := previo + [Some(x)];
      assert r[..|previo|] == previo;
      assert Definidos(r) == Definidos(previo) + [x];
    }
    assert d + (multiset(despues) + multiset{x}) == (d + multiset{x}) + multiset(despues);
  }

  /** After n <= |pool| passes with `splice(k, 1)` the pool has lost exactly
      n values and each of the first n cards has a value. */
  lemma {:induction false} PoolRemovingOneDealsAll(pool: seq<int>, azar: seq<real>, n: nat)
    requires Draws(azar) && n <= |azar| && n <= |pool|
    ensures |PoolRemovingOne(pool, azar, n)| == |pool| - n
    ensures forall j :: 0 <= j < n ==> DealRemovingOne(pool, azar, n)[j].Some?
  {
    if n > 0 {
      PoolRemovingOneDealsAll(pool, azar, n - 1);
      var antes, previo := PoolRemovingOne(pool, azar, n - 1), DealRemovingOne(pool, azar, n - 1);
      assert PoolRemovingOne(pool, azar, n) == SpliceOne(antes, azar[n - 1]);
      var r := previo + [Drawn(antes, azar[n - 1])];
      assert DealRemovingOne(pool, azar, n) == r;
      forall j | 0 <= j < n ensures r[j].Some? {
        if j < n - 1 {
          assert r[j] == previo[j];
        }
      }
    }
  }

  /** After n <= |pool| passes with `splice(k, 1)` the values of the first n
      cards together with the remaining pool are exactly the original pool. */
  lemma {:induction false} PoolRemovingOneConserves(pool: seq<int>, azar: seq<real>, n: nat)
    requires Draws(azar) && n <= |azar| && n <= |pool|
    ensures multiset(pool) ==
              multiset(Definidos(DealRemovingOne(pool, azar, n))) + multiset(PoolRemovingOne(pool, azar, n))
  {
    if n > 0 {
      PoolRemovingOneConserves(pool, azar, n - 1);
      PoolRemovingOneDealsAll(pool, azar, n - 1);
      var antes, previo := PoolRemovingOne(pool, azar, n - 1), DealRemovingOne(pool, azar, n - 1);
      var despues := PoolRemovingOne(pool, azar, n);
      assert despues == SpliceOne(antes, azar[n - 1]);
      SpliceOneRemovesDrawn(antes, azar[n - 1]);
      var v := Drawn(antes, azar[n - 1]);
      assert v.Some? && multiset(antes) == multiset(despues) + multiset{v.value};
      var x := v.value;
      assert DealRemovingOne(pool, azar, n) == previo + [Some(x)];
      ConservesStep(pool, previo, antes, despues, x);
    }
  }

  /** With as many draws as values, the intended deal gives every card a
      value and hands out exactly the pool: a permutation of it. */
  lemma DealRemovingOnePermutes(pool: seq<int>, azar: seq<real>)
    requires Draws(azar) && |azar| == |pool|
    ensures var r := DealRemovingOne(pool, azar, |azar|);
      && (forall j :: 0 <= j < |r| ==> r[j].Some?)
      && multiset(Definidos(r)) == multiset(pool)
  {
    PoolRemovingOneDealsAll(pool, azar, |pool|);
    PoolRemovingOneConserves(pool, azar, |pool|);
  }

  /** On a board of even dimension d, the intended deal gives every card a
      value, and each of 1 .. d²/2 to exactly two cards. */
  lemma DealRemovingOnePairs(dimension: int, azar: seq<real>)
    requires dimension >= 2 && dimension % 2 == 0
    requires |azar| == dimension * dimension && Draws(azar)
    ensures var r := DealRemovingOne(ValoresIniciales(dimension), azar, |azar|);
      && (forall j :: 0 <= j < |r| ==> r[j].Some?)
      && forall v :: multiset(Definidos(r))[v] == if 1 <= v <= dimension * dimension / 2 then 2 else 0
  {
    ValoresInicialesPorPares(dimension);
    DealRemovingOnePermutes(ValoresIniciales(dimension), azar);
  }

  // ---------------------------------------------------------------------------
  // Cards
  // ---------------------------------------------------------------------------

  /** A card `span` as `crearTablero` fills it in: its `class`, `id`, `name`
      and `value` (undefined when the pool had nothing at the drawn index). */
  datatype Carta = Carta(clase: string, id: string, nombre: string, valor: Option<int>)

  /** The values of a row of cards, in order. */
  function Valores(cartas: seq<Carta>): (r: seq<Option<int>>)
    ensures |r| == |cartas|
  {
    if cartas == [] then []
    else Valores(cartas[..|cartas| - 1]) + [cartas[|cartas| - 1].valor]
  }

  /** The digit character for 0 <= d < 10. */
  function Digit(d: int): char
    requires 0 <= d < 10
  {
    (48 + d) as char
  }

  /** The decimal text JavaScript produces for a non-negative integer in a
      string concatenation. */
  function Decimal(n: nat): (s: string)
    ensures |s| >= 1 && (n >= 10 <==> |s| >= 2)
    ensures forall k :: 0 <= k < |s| ==> '0' <= s[k] <= '9'
  {
    if n < 10 then [Digit(n)] else Decimal(n / 10) + [Digit(n % 10)]
  }

  /** Different numbers have different decimal texts. */
  lemma {:induction false} DecimalInjective(a: nat, b: nat)
    requires Decimal(a) == Decimal(b)
    ensures a == b
  {
    if a >= 10 && b >= 10 {
      var sa, sb := Decimal(a), Decimal(b);
      assert Digit(a % 10) == sa[|sa| - 1] == sb[|sb| - 1] == Digit(b % 10);
      assert sa[..|sa| - 1] == Decimal(a / 10);
      assert sb[..|sb| - 1] == Decimal(b / 10);
      DecimalInjective(a / 10, b / 10);
    }
  }

  /** `"carta" + i`. */
  function IdCarta(i: nat): (s: string)
    ensures |s| >= 6 && s[..5] == "carta"
    ensures forall k :: 5 <= k < |s| ==> '0' <= s[k] <= '9'
  {
    "carta" + Decimal(i)
  }

  /** Different card numbers give different ids. */
  lemma IdCartaInjective(i: nat, j: nat)
    requires i != j
    ensures IdCarta(i) != IdCarta(j)
  {
    if IdCarta(i) == IdCarta(j) {
      assert IdCarta(i)[5..] == Decimal(i);
      assert IdCarta(j)[5..] == Decimal(j);
      DecimalInjective(i, j);
    }
  }

  /** Card number i (from 1) with the value the loop gives it. */
  function NuevaCarta(i: nat, valor: Option<int>): (c: Carta)
    ensures Numerada(c, i) && c.valor == valor
  {
    Carta("carta", IdCarta(i), IdCarta(i), valor)
  }

  /** Appending a card appends its value. */
  lemma ValoresAppend(cartas: seq<Carta>, carta: Carta)
    ensures Valores(cartas + [carta]) == Valores(cartas) + [carta.valor]
  {
    assert (cartas + [carta])[..|cartas|] == cartas;
  }

  /** Card `c` is the i-th card: class "carta", id and name "carta"+i. */
  predicate Numerada(c: Carta, i: nat)
  {
    c.clase == "carta" && c.id == IdCarta(i) && c.nombre == IdCarta(i)
  }

  /** Cards numbered 1, 2, ... in order. */
  predicate Numeradas(cartas: seq<Carta>)
  {
    forall j :: 0 <= j < |cartas| ==> Numerada(cartas[j], j + 1)
  }

  /** Appending the next numbered card keeps the cards numbered in order. */
  lemma NumeradasAppend(cartas: seq<Carta>, carta: Carta)
    requires Numeradas(cartas) && Numerada(carta, |cartas| + 1)
    ensures Numeradas(cartas + [carta])
  {
  }

  /** Cards numbered 1, 2, ... in order have pairwise different ids. */
  lemma IdsDistintas(cartas: seq<Carta>)
    requires Numeradas(cartas)
    ensures forall a, b :: 0 <= a < b < |cartas| ==> cartas[a].id != cartas[b].id
  {
    forall a, b | 0 <= a < b < |cartas| ensures cartas[a].id != cartas[b].id {
      IdCartaInjective(a + 1, b + 1);
    }
  }

  /** The loop of `crearTablero` AS WRITTEN: for i = 1 .. totalCartas it makes
      card "carta"+i, gives it `valores[k]` for a drawn k and then runs
      `valores.splice(k)`. Exactly d² cards with pairwise different ids; their
      values are those of DealSplicingTail on the initial pool. */
  method CrearTablero(dimension: int, azar: seq<real>) returns (cartas: seq<Carta>)
    requires dimension >= 2
    requires |azar| == dimension * dimension && Draws(azar)
    ensures |cartas| == dimension * dimension
    ensures Numeradas(cartas)
    ensures forall a, b :: 0 <= a < b < |cartas| ==> cartas[a].id != cartas[b].id
    ensures Valores(cartas) == DealSplicingTail(ValoresIniciales(dimension), azar, |azar|)
  {
    var totalCartas := dimension * dimension;
    var mitad := Range(1, Some(totalCartas / 2 + 1), 1).elems;
    var valores := mitad + mitad;
    ghost var pool := valores;
    assert pool == ValoresIniciales(dimension);
    cartas := [];
    var i := 1;
    while i <= totalCartas
      invariant 1 <= i <= totalCartas + 1 && |cartas| == i - 1
      invariant valores == PoolSplicingTail(pool, azar, i - 1)
      invariant Valores(cartas) == DealSplicingTail(pool, azar, i - 1)
      invariant Numeradas(cartas)
    {
      // k is drawn from azar[i - 1]; the card gets valores[k], then `valores.splice(k)`
      var valor := Drawn(valores, azar[i - 1]);
      var carta := NuevaCarta(i, valor);
      ValoresAppend(cartas, carta);
      NumeradasAppend(cartas, carta);
      cartas := cartas + [carta];
      valores := SpliceTail(valores, azar[i - 1]);
      i := i + 1;
    }
    IdsDistintas(cartas);
  }

  /** The same loop with `valores.splice(k, 1)`, as evidently intended: the
      values dealt are those of DealRemovingOne, and on a board of even
      dimension every card gets a value and each of the values 1 .. d²/2
      lands on exactly two cards. */
  method CrearTableroIntended(dimension: int, azar: seq<real>) returns (cartas: seq<Carta>)
    requires dimension >= 2
    requires |azar| == dimension * dimension && Draws(azar)
    ensures |cartas| == dimension * dimension
    ensures Numeradas(cartas)
    ensures forall a, b :: 0 <= a < b < |cartas| ==> cartas[a].id != cartas[b].id
    ensures Valores(cartas) == DealRemovingOne(ValoresIniciales(dimension), azar, |azar|)
    ensures dimension % 2 == 0 ==>
              && (forall j :: 0 <= j < |cartas| ==> Valores(cartas)[j].Some?)
              && forall v :: multiset(Definidos(Valores(cartas)))[v] ==
                               if 1 <= v <= dimension * dimension / 2 then 2 else 0
  {
    var totalCartas := dimension * dimension;
    var mitad := Range(1, Some(totalCartas / 2 + 1), 1).elems;
    var valores := mitad + mitad;
    ghost var pool := valores;
    assert pool == ValoresIniciales(dimension);
    cartas := [];
    var i := 1;
    while i <= totalCartas
      invariant 1 <= i <= totalCartas + 1 && |cartas| == i - 1
      invariant valores == PoolRemovingOne(pool, azar, i - 1)
      invariant Valores(cartas) == DealRemovingOne(pool, azar, i - 1)
      invariant Numeradas(cartas)
    {
      // k is drawn from azar[i - 1]; the card gets valores[k], then `valores.splice(k, 1)`
      var valor := Drawn(valores, azar[i - 1]);
      var carta := NuevaCarta(i, valor);
      ValoresAppend(cartas, carta);
      NumeradasAppend(cartas, carta);
      cartas := cartas + [carta];
      valores := SpliceOne(valores, azar[i - 1]);
      i := i + 1;
    }
    IdsDistintas(cartas);
    if dimension % 2 == 0 {
      DealRemovingOnePairs(dimension, azar);
    }
  }
}
