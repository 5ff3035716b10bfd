/** Proyecto/js/utilidades.js: the integer helpers `range` and `divisibles`,
    the per-object private store `defPrivados`, and the function stack of
    `GeneralException`.

    Arguments are modelled as integers already parsed: `parseInt` and the
    `NaN` checks are not part of this model. */
module Utilidades {
  import opened Wrappers

  /** `Math.sign` on integers. */
  function Sign(x: int): (s: int)
    ensures s * x >= 0 && (s == 0 <==> x == 0)
    ensures s == 1 || s == 0 || s == -1
  {
    if x > 0 then 1 else if x < 0 then -1 else 0
  }

  /** `Math.ceil(a / b)` for integers: the least q with q * b >= a when b is
      positive, the least q with q * b <= a when b is negative. */
  function CeilDiv(a: int, b: int): (q: int)
    requires b != 0
    ensures b > 0 ==> q * b >= a && (q - 1) * b < a
    ensures b < 0 ==> q * b <= a && (q - 1) * b > a
  {
    if b > 0 then
      var q := (a + b - 1) / b;
      assert q * b == a + b - 1 - (a + b - 1) % b;
      q
    else
      var q := (-a - b - 1) / (-b);
      assert q * (-b) == -a - b - 1 - (-a - b - 1) % (-b);
      q
  }

  // ---------------------------------------------------------------------------
  // range( ini, fin, paso=1)
  // ---------------------------------------------------------------------------

  /** What a call of `range` produces: `null`, the `RangeError` that
      `Array(n)` throws for a negative n, or an array of integers. */
  datatype RangeResult = Null | RangeError | Array(elems: seq<int>)

  /** `range(ini, fin, paso)`; `fin == None` is a call without `fin`.

      The source builds the array as `Array(n).map(f)`. JavaScript's map does
      not visit the holes of `Array(n)`, so as written every slot stays a
      hole (see MapOverHoles and RangeHolesUpTo). This function gives the
      slots the values the doc comment promises: `i * paso` without `fin`,
      `ini + i * paso` with. Lengths are taken to stay below 2^32, where
      `Array(n)` would also throw. */
  function Range(ini: int, fin: Option<int>, paso: int): (r: RangeResult)
    ensures r.Null? <==>
              || paso == 0
              || (fin.None? && (paso < 0 || ini < 0))
              || (fin.Some? && fin.value <= ini * Sign(paso))
    ensures r.RangeError? <==>
              paso < 0 && fin.Some? && fin.value > -ini && fin.value - ini >= -paso
  {
    if paso == 0 then Null
    else if fin.None? then
      if paso < 0 || ini < 0 then Null
      else Array(seq(CeilDiv(ini, paso), i => i * paso))
    else if fin.value <= ini * Sign(paso) then Null
    else
      var n := CeilDiv(fin.value - ini, paso);
      if n < 0 then RangeError else Array(seq(n, i => ini + i * paso))
  }

  /** Element i of an upward progression from `desde` lies in [desde, hasta). */
  lemma ProgressionInBounds(desde: int, hasta: int, paso: int, i: int)
    requires paso > 0 && 0 <= i < CeilDiv(hasta - desde, paso)
    ensures desde <= desde + i * paso < hasta
  {
    var n := CeilDiv(hasta - desde, paso);
    assert i * paso <= (n - 1) * paso;
  }

  /** Every x in [desde, hasta) that `paso` reaches from `desde` is element
      (x - desde) / paso of the progression. */
  lemma ProgressionReaches(desde: int, hasta: int, paso: int, x: int)
    requires paso > 0 && desde <= x < hasta && (x - desde) % paso == 0
    ensures 0 <= (x - desde) / paso < CeilDiv(hasta - desde, paso)
    ensures desde + (x - desde) / paso * paso == x
  {
    var q, n := (x - desde) / paso, CeilDiv(hasta - desde, paso);
    assert q * paso == x - desde;
  }

  /** Consecutive elements of an upward progression strictly increase. */
  lemma ProgressionIncreases(desde: int, paso: int, i: int, j: int)
    requires paso > 0 && i < j
    ensures desde + i * paso < desde + j * paso
  {
    assert (j - i) * paso > 0;
  }

  /** `range(ini)` and `range(ini, undefined, paso)`: for ini >= 0 and a
      positive step, ⌈ini/paso⌉ values i * paso, increasing from 0, below
      ini, and every multiple of paso in [0, ini) among them. */
  lemma RangeUpTo(ini: int, paso: int)
    requires ini >= 0 && paso > 0
    ensures Range(ini, None, paso).Array?
    ensures var s := Range(ini, None, paso).elems;
      && |s| == CeilDiv(ini, paso)
      && (forall i :: 0 <= i < |s| ==> s[i] == i * paso && 0 <= s[i] < ini)
      && (forall i, j :: 0 <= i < j < |s| ==> s[i] < s[j])
      && (forall x :: 0 <= x < ini && x % paso == 0 ==> x in s)
  {
    var s := Range(ini, None, paso).elems;
    forall i | 0 <= i < |s| ensures 0 <= s[i] < ini {
      ProgressionInBounds(0, ini, paso, i);
    }
    forall i, j | 0 <= i < j < |s| ensures s[i] < s[j] {
      ProgressionIncreases(0, paso, i, j);
    }
    forall x | 0 <= x < ini && x % paso == 0 ensures x in s {
      ProgressionReaches(0, ini, paso, x);
      assert s[x / paso] == x;
    }
  }

  /** `range(ini, fin, paso)` with a positive step and fin > ini:
      ⌈(fin-ini)/paso⌉ values ini + i * paso, strictly increasing, each in
      [ini, fin), and every value of [ini, fin) that the step reaches from ini
      among them. */
  lemma RangeBetween(ini: int, fin: int, paso: int)
    requires paso > 0 && fin > ini
    ensures Range(ini, Some(fin), paso).Array?
    ensures var s := Range(ini, Some(fin), paso).elems;
      && |s| == CeilDiv(fin - ini, paso) >= 1
      && (forall i :: 0 <= i < |s| ==> s[i] == ini + i * paso && ini <= s[i] < fin)
      && (forall i, j :: 0 <= i < j < |s| ==> s[i] < s[j])
      && (forall x :: ini <= x < fin && (x - ini) % paso == 0 ==> x in s)
  {
    var s := Range(ini, Some(fin), paso).elems;
    forall i | 0 <= i < |s| ensures ini <= s[i] < fin {
      ProgressionInBounds(ini, fin, paso, i);
    }
    forall i, j | 0 <= i < j < |s| ensures s[i] < s[j] {
      ProgressionIncreases(ini, paso, i, j);
    }
    forall x | ini <= x < fin && (x - ini) % paso == 0 ensures x in s {
      ProgressionReaches(ini, fin, paso, x);
      assert s[(x - ini) / paso] == x;
    }
    ProgressionReaches(ini, fin, paso, ini);
  }

  /** `Array(n).map(f)` as JavaScript evaluates it: the n slots of `Array(n)`
      are holes, `map` never calls `f` on a hole, so every slot of the
      result is still a hole (`None`). */
  function MapOverHoles(n: nat, f: int -> int): seq<Option<int>>
  {
    seq(n, i => None)
  }

  /** As written, `range(ini)` and `range(ini, undefined, paso)` with ini > 0
      and a positive step build a non-empty array in which no slot holds the
      value the doc comment promises for it. */
  lemma RangeHolesUpTo(ini: int, paso: int)
    requires ini > 0 && paso > 0
    ensures var s := Range(ini, None, paso).elems;
      var built := MapOverHoles(|s|, i => i * paso);
      |s| >= 1 && |built| == |s| && forall i :: 0 <= i < |s| ==> built[i] != Some(s[i])
  {
    RangeUpTo(ini, paso);
    var s := Range(ini, None, paso).elems;
    assert CeilDiv(ini, paso) * paso >= ini;
  }

  /** As written, `range(ini, fin, paso)` with fin > ini and a positive step
      builds a non-empty array in which no slot holds its promised value. */
  lemma RangeHolesBetween(ini: int, fin: int, paso: int)
    requires fin > ini && paso > 0
    ensures var s := Range(ini, Some(fin), paso).elems;
      var built := MapOverHoles(|s|, i => ini + i * paso);
      |s| >= 1 && |built| == |s| && forall i :: 0 <= i < |s| ==> built[i] != Some(s[i])
  {
    RangeBetween(ini, fin, paso);
  }

  /** `range(3)` promises [0, 1, 2]; the array the source builds for it has
      three holes and none of those values. */
  lemma RangeHolesCounterexample()
    ensures Range(3, None, 1) == Array([0, 1, 2])
    ensures var built := MapOverHoles(CeilDiv(3, 1), i => i * 1);
      |built| == 3 && Some(0) !in built && Some(1) !in built && Some(2) !in built
  {
    RangeUpTo(3, 1);
    var s := Range(3, None, 1).elems;
    assert s[0] == 0 && s[1] == 1 && s[2] == 2;
  }

  /** `range` with the guard on `fin` stated as evidently intended: the end
      must lie beyond `ini` in the direction of the step, `fin * signo <=
      ini * signo` rejects. Never throws. */
  function RangeIntended(ini: int, fin: Option<int>, paso: int): (r: RangeResult)
    ensures !r.RangeError?
    ensures r.Null? <==>
              || paso == 0
              || (fin.None? && (paso < 0 || ini < 0))
              || (fin.Some? && fin.value * Sign(paso) <= ini * Sign(paso))
  {
    if paso == 0 then Null
    else if fin.None? then
      if paso < 0 || ini < 0 then Null
      else Array(seq(CeilDiv(ini, paso), i => i * paso))
    else if fin.value * Sign(paso) <= ini * Sign(paso) then Null
    else
      var n := CeilDiv(fin.value - ini, paso);
      assert n >= 1;
      Array(seq(n, i => ini + i * paso))
  }

  /** Where the step is positive, or `fin` is absent, the intended guard and
      the guard as written agree. */
  lemma RangeIntendedAgrees(ini: int, fin: Option<int>, paso: int)
    requires paso > 0 || fin.None?
    ensures RangeIntended(ini, fin, paso) == Range(ini, fin, paso)
  {
  }

  /** Wherever the guard as written yields a non-empty array, the intended
      guard yields the same one: the two differ only where the written code
      returns null, throws, or returns an empty array. */
  lemma RangeIntendedExtends(ini: int, fin: Option<int>, paso: int)
    requires Range(ini, fin, paso).Array? && Range(ini, fin, paso).elems != []
    ensures RangeIntended(ini, fin, paso) == Range(ini, fin, paso)
  {
    if fin.Some? && paso < 0 {
      var n := CeilDiv(fin.value - ini, paso);
      assert n >= 1;
      assert fin.value < ini by {
        assert (n - 1) * paso > fin.value - ini;
        NegativeMultiple(n - 1, paso);
      }
    }
  }

  /** With the intended guard, a negative step counts down from ini towards
      fin: ⌈(fin-ini)/paso⌉ >= 1 values ini + i * paso, strictly decreasing,
      each in (fin, ini]. */
  lemma RangeIntendedDescending(ini: int, fin: int, paso: int)
    requires paso < 0 && fin < ini
    ensures RangeIntended(ini, Some(fin), paso).Array?
    ensures var s := RangeIntended(ini, Some(fin), paso).elems;
      && |s| == CeilDiv(fin - ini, paso) >= 1
      && (forall i :: 0 <= i < |s| ==> s[i] == ini + i * paso && fin < s[i] <= ini)
      && (forall i, j :: 0 <= i < j < |s| ==> s[i] > s[j])
  {
    var n := CeilDiv(fin - ini, paso);
    var s := RangeIntended(ini, Some(fin), paso).elems;
    assert s == seq(n, i => ini + i * paso);
    forall i | 0 <= i < n ensures fin < ini + i * paso <= ini {
      DescendingInBounds(ini, fin, paso, i);
    }
    forall i, j | 0 <= i < j < n ensures ini + i * paso > ini + j * paso {
      NegativeMultiple(j - i, paso);
      assert j * paso - i * paso == (j - i) * paso;
    }
  }

  /** A non-negative count of a negative step is a non-positive distance,
      negative once the count is positive. */
  lemma {:induction false} NegativeMultiple(a: int, paso: int)
    requires a >= 0 && paso < 0
    ensures a * paso <= 0 && (a > 0 ==> a * paso < 0)
  {
    if a > 0 {
      NegativeMultiple(a - 1, paso);
      assert a * paso == (a - 1) * paso + paso;
    }
  }

  /** Element i of a downward progression from `ini` lies in (fin, ini]. */
  lemma DescendingInBounds(ini: int, fin: int, paso: int, i: int)
    requires paso < 0 && 0 <= i < CeilDiv(fin - ini, paso)
    ensures fin < ini + i * paso <= ini
  {
    var n := CeilDiv(fin - ini, paso);
    assert (n - 1) * paso > fin - ini;
    NegativeMultiple(n - 1 - i, paso);
    assert (n - 1) * paso - i * paso == (n - 1 - i) * paso;
    NegativeMultiple(i, paso);
  }

  /** The guard as written at utilidades.js:40 compares `fin` with
      `ini * signo` only: with a negative step it throws for an end above
      the start and returns null for a valid countdown. */
  lemma RangeNegativeStepCounterexample()
    ensures Range(0, Some(5), -1) == RangeError
    ensures RangeIntended(0, Some(5), -1) == Null
    ensures Range(5, Some(-10), -1) == Null
    ensures RangeIntended(5, Some(-10), -1).Array?
    ensures Range(5, Some(0), -1) == Array([5, 4, 3, 2, 1])
  {
    RangeIntendedDescending(5, 0, -1);
    var s := Range(5, Some(0), -1).elems;
    assert |s| == 5;
  }

  // ---------------------------------------------------------------------------
  // divisibles( numero)
  // ---------------------------------------------------------------------------

  /** `divisibles(numero)`: the comprehension over i = 1, 2, ... while
      `i < numero/2` that keeps each i with `numero % i == 0`. Division by 2
      is exact in JavaScript, so the bound is 2 * i < numero; the loop runs
      only for numero > 2, where JavaScript's `%` agrees with Dafny's. */
  function Divisibles(numero: int): (r: seq<int>)
    ensures forall x :: x in r <==> 1 <= x && 2 * x < numero && numero % x == 0
    ensures forall i, j :: 0 <= i < j < |r| ==> r[i] < r[j]
  {
    DivisiblesFrom(numero, 1)
  }

  /** The comprehension from index `i` on. */
  function DivisiblesFrom(numero: int, i: int): (r: seq<int>)
    requires i >= 1
    ensures forall x :: x in r <==> i <= x && 2 * x < numero && numero % x == 0
    ensures forall a :: 0 <= a < |r| ==> r[a] >= i
    ensures forall a, b :: 0 <= a < b < |r| ==> r[a] < r[b]
    decreases numero - i
  {
    if 2 * i >= numero then []
    else if numero % i == 0 then [i] + DivisiblesFrom(numero, i + 1)
    else DivisiblesFrom(numero, i + 1)
  }

  /** Despite the doc comment's "todos los números que dividen", the result
      never holds numero itself nor, for an even numero, its half. */
  lemma DivisiblesOmitHalfAndSelf(numero: int)
    requires numero >= 2 && numero % 2 == 0
    ensures numero / 2 !in Divisibles(numero) && numero !in Divisibles(numero)
    ensures numero % (numero / 2) == 0
  {
  }

  // ---------------------------------------------------------------------------
  // defPrivados()
  // ---------------------------------------------------------------------------

  /** A value stored in a private record. */
  datatype Valor = Cadena(s: string) | Numero(n: int) | Lista(items: seq<string>)

  /** The object `{}` that the accessor creates for an object; its owner
      fills in its members afterwards. */
  class Registro {
    var miembros: map<string, Valor>

    constructor ()
      ensures miembros == map[]
    {
      miembros := map[];
    }
  }

  /** What `defPrivados()` returns: the closure over a WeakMap from objects
      to their private records. The constructor is the call of
      `defPrivados()`, `Acceder` a call of the returned function. */
  class Privados {
    var objetos: map<object, Registro>

    constructor ()
      ensures objetos == map[]
    {
      objetos := map[];
    }

    /** Get-or-create: a first call for `obj` stores a fresh empty record,
        later calls return the stored one; no other entry changes. */
    method Acceder(obj: object) returns (r: Registro)
      modifies this
      ensures obj in objetos && objetos[obj] == r
      ensures obj in old(objetos) ==> r == old(objetos[obj]) && objetos == old(objetos)
      ensures obj !in old(objetos) ==>
                fresh(r) && r.miembros == map[] && objetos == old(objetos)[obj := r]
      ensures forall o :: o in old(objetos) ==> o in objetos && objetos[o] == old(objetos)[o]
    {
      if obj !in objetos {
        var nuevo := new Registro();
        objetos := objetos[obj := nuevo];
      }
      r := objetos[obj];
    }
  }

  /** Two calls of the accessor for the same object return the same record,
      and the second call changes nothing. */
  method AccederDosVeces(p: Privados, obj: object) returns (r1: Registro, r2: Registro)
    modifies p
    ensures r1 == r2
    ensures p.objetos == old(p.objetos)[obj := r1]
  {
    r1 := p.Acceder(obj);
    ghost var tras := p.objetos;
    r2 := p.Acceder(obj);
    assert p.objetos == tras;
  }

  // ---------------------------------------------------------------------------
  // GeneralException
  // ---------------------------------------------------------------------------

  /** A statement of a derived class's constructor, as far as the binding of
      `this` goes: the call `super(...)`, a use of `this`, or anything else. */
  datatype Sentencia = LlamaSuper | UsaThis | Otra

  /** How a constructor body ends: with the object built, or with the
      ReferenceError JavaScript throws for a misuse of `this`. */
  datatype Desenlace = Construido | ReferenceError

  /** A constructor of a class declared with `extends` runs with `this`
      unbound until `super(...)` returns. Using `this` before that, calling
      `super` a second time, or finishing without calling it throws a
      ReferenceError. `enlazado` says whether `super` has already run. */
  function EjecutarDerivado(cuerpo: seq<Sentencia>, enlazado: bool): (d: Desenlace)
    ensures d == Construido ==> enlazado || LlamaSuper in cuerpo
  {
    if cuerpo == [] then (if enlazado then Construido else ReferenceError)
    else match cuerpo[0]
      case LlamaSuper => if enlazado then ReferenceError else EjecutarDerivado(cuerpo[1..], true)
      case UsaThis => if enlazado then EjecutarDerivado(cuerpo[1..], true) else ReferenceError
      case Otra => EjecutarDerivado(cuerpo[1..], enlazado)
  }

  /** A body that uses `this` before any call of `super` always throws. */
  lemma {:induction false} UsaThisAntesDeSuper(cuerpo: seq<Sentencia>, i: nat)
    requires i < |cuerpo| && cuerpo[i] == UsaThis
    requires forall j :: 0 <= j < i ==> cuerpo[j] != LlamaSuper
    ensures EjecutarDerivado(cuerpo, false) == ReferenceError
  {
    if i > 0 && cuerpo[0] == Otra {
      UsaThisAntesDeSuper(cuerpo[1..], i - 1);
    }
  }

  /** Once `super` has run, a body with no further call of `super` completes. */
  lemma {:induction false} SinSuperCompleta(cuerpo: seq<Sentencia>)
    requires LlamaSuper !in cuerpo
    ensures EjecutarDerivado(cuerpo, true) == Construido
  {
    if cuerpo != [] {
      assert forall x :: x in cuerpo[1..] ==> x in cuerpo;
      SinSuperCompleta(cuerpo[1..]);
    }
  }

  /** The body of `GeneralException`'s constructor as written: `priv(this)`,
      then four writes to the private record, and no call of `super`. */
  const CuerpoGeneralException: seq<Sentencia> := [UsaThis, Otra, Otra, Otra, Otra]

  /** As written, every `new GeneralException(...)`, with or without
      arguments, throws a ReferenceError; with `super()` first it completes. */
  lemma GeneralExceptionComoEscrito()
    ensures EjecutarDerivado(CuerpoGeneralException, false) == ReferenceError
    ensures EjecutarDerivado([LlamaSuper] + CuerpoGeneralException, false) == Construido
  {
    UsaThisAntesDeSuper(CuerpoGeneralException, 0);
    SinSuperCompleta(CuerpoGeneralException);
    assert ([LlamaSuper] + CuerpoGeneralException)[1..] == CuerpoGeneralException;
  }

  /** `GeneralException`: code, name, message and the stack of the functions
      the error has passed through. The source keeps these in the object's
      private record; the model keeps them as fields. The constructor is the
      intended one, with `super()` called first (see
      GeneralExceptionComoEscrito). */
  class GeneralException {
    var codigo: int
    var nombre: string
    var mensaje: string
    var pilaFunciones: seq<string>

    /** The stack starts as `[funcion]` for a non-empty function name and
        empty otherwise (an empty string is falsy). */
    constructor (codigo: int := -1, nombre: string := "Error", mensaje: string := "Error",
                 funcion: string := "")
      ensures this.codigo == codigo && this.nombre == nombre && this.mensaje == mensaje
      ensures funcion != "" ==> pilaFunciones == [funcion]
      ensures funcion == "" ==> pilaFunciones == []
    {
      this.mensaje := mensaje;
      this.codigo := codigo;
      this.nombre := nombre;
      pilaFunciones := if funcion != "" then [funcion] else [];
    }

    /** `agregarFuncion`: pushes one entry at the end of the stack; earlier
        entries and the other fields stay as they were. */
    method AgregarFuncion(funcion: string)
      modifies this
      ensures |pilaFunciones| == |old(pilaFunciones)| + 1
      ensures pilaFunciones[..|old(pilaFunciones)|] == old(pilaFunciones)
      ensures pilaFunciones[|old(pilaFunciones)|] == funcion
      ensures codigo == old(codigo) && nombre == old(nombre) && mensaje == old(mensaje)
    {
      pilaFunciones := pilaFunciones + [funcion];
    }
  }
}
