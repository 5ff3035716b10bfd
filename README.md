# Memory-card game helpers: a Dafny model

This project models the integer core of a small browser memory-card game
written in JavaScript (`Proyecto/js/utilidades.js` and
`Proyecto/js/juegocartas.js`), and proves what that code promises:

- `range(ini, fin, paso)`, the Python-style range generator. Its arguments are
  taken as integers already parsed, and a missing `fin` is `None`. Its result
  is `Null`, the `RangeError` that `Array(n)` throws for a negative length, or
  an array. The copy of `range` in `juegocartas.js` has a body identical to the
  exported one in `utilidades.js`, and `Utilidades.Range` models both.
- `divisibles(numero)`: the divisors of `numero` found below `numero/2`, in
  increasing order.
- `defPrivados()`: the get-or-create store of private records keyed by object
  identity. It is modelled as the class `Privados` holding a map from objects
  to `Registro` objects.
- `GeneralException`: the constructor's stack of function names and
  `agregarFuncion`, which pushes one name onto it. The model keeps the fields
  directly in the object. As written the constructor of this subclass of
  `Error` reads `this` before any `super()` call, which JavaScript rejects;
  `EjecutarDerivado` models that rule and the class models the constructor
  with `super()` first.
- `juegocartas.js`: `MAX_DIM` and `dimensiones`, the initial pool of card
  values, and the deal loop of `crearTablero`. Each card is given a value
  drawn with `Math.random()`. The draws are a parameter `azar: seq<real>` of
  numbers in [0, 1), and the index is `parseInt(draw * length)`.
  `CrearTablero` is the loop as written, over a mutable pool and a growing
  sequence of cards. `CrearTableroIntended` is the same loop with the
  evidently intended `splice(k, 1)`.

Each loop is proved against a specification function defined on values.
`DealSplicingTail` and `DealRemovingOne` give the values dealt to the first n
cards. `PoolSplicingTail` and `PoolRemovingOne` give the pool after n passes.
The lemmas then state what those deals guarantee.

`divisibles` stops at `i < numero/2`. Despite its doc comment ("todos los
números que dividen"), it therefore never yields `numero` itself, nor, for an
even `numero`, its half (`DivisiblesOmitHalfAndSelf`).

## Model

| member | source | states |
|---|---|---|
| Utilidades.Sign | Proyecto/js/utilidades.js:38 | `Math.sign` on integers: 1, 0 or -1, zero exactly for 0, and never of the opposite sign to its argument |
| Utilidades.CeilDiv | Proyecto/js/utilidades.js:35 | `Math.ceil(a/b)`: for b > 0 the least q with q·b ≥ a; for b < 0 the least q with q·b ≤ a |
| Utilidades.Range | Proyecto/js/utilidades.js:26-43 | null exactly when paso is 0, or fin is absent and ini or paso is negative, or fin ≤ ini·sign(paso); a RangeError exactly when paso < 0 and fin > -ini and the length ⌈(fin-ini)/paso⌉ is negative; it models the identical copy at juegocartas.js:13-30 as well |
| Utilidades.RangeUpTo | Proyecto/js/utilidades.js:32-35 | range(ini) with ini ≥ 0 and paso > 0 has ⌈ini/paso⌉ elements; element i is i·paso, in [0, ini); the elements strictly increase; every multiple of paso in [0, ini) appears |
| Utilidades.RangeBetween | Proyecto/js/utilidades.js:38-42 | range(ini, fin, paso) with paso > 0 and fin > ini has ⌈(fin-ini)/paso⌉ ≥ 1 elements; element i is ini + i·paso, in [ini, fin); the elements strictly increase; every value in [ini, fin) reached from ini by steps of paso appears |
| Utilidades.RangeHolesUpTo | Proyecto/js/utilidades.js:32-35 | for every ini > 0 and paso > 0, the array `Array(n).map(i => i*paso)` builds has the promised length n ≥ 1, yet no slot holds the promised element |
| Utilidades.RangeHolesBetween | Proyecto/js/utilidades.js:38-42 | for every fin > ini and paso > 0, the array `Array(n).map(i => ini + i*paso)` builds has the promised length n ≥ 1, yet no slot holds the promised element |
| Utilidades.RangeHolesCounterexample | Proyecto/js/utilidades.js:35 | range(3) promises [0, 1, 2], but the array built as written holds none of 0, 1, 2 |
| Utilidades.RangeIntended | Proyecto/js/utilidades.js:38-42 | with the guard fin·sign(paso) ≤ ini·sign(paso), range never throws, and it is null exactly when paso is 0, or fin is absent and ini or paso is negative, or fin does not lie beyond ini in the step's direction |
| Utilidades.RangeIntendedAgrees | Proyecto/js/utilidades.js:30-40 | for a positive step, or without fin, the intended guard and the written guard give the same result |
| Utilidades.RangeIntendedExtends | Proyecto/js/utilidades.js:38-42 | wherever the written guard already yields a non-empty array, the intended guard yields the same array: the correction only changes inputs the written code gets wrong |
| Utilidades.RangeIntendedDescending | Proyecto/js/utilidades.js:38-42 | with the intended guard, paso < 0 and fin < ini yield ⌈(fin-ini)/paso⌉ ≥ 1 elements ini + i·paso, each in (fin, ini], strictly decreasing |
| Utilidades.RangeNegativeStepCounterexample | Proyecto/js/utilidades.js:40 | as written, range(0, 5, -1) throws where the intended guard returns null, and range(5, -10, -1) returns null where the intended guard counts down; range(5, 0, -1) does count down to [5, 4, 3, 2, 1] |
| Utilidades.Divisibles | Proyecto/js/utilidades.js:52-55 | x is in the result exactly when 1 ≤ x, 2·x < numero and x divides numero; the result strictly increases |
| Utilidades.DivisiblesOmitHalfAndSelf | Proyecto/js/utilidades.js:46-54 | for an even numero ≥ 2, numero/2 divides numero yet neither it nor numero is in the result |
| Utilidades.Registro.constructor | Proyecto/js/utilidades.js:75 | a new private record `{}` has no members |
| Utilidades.Privados.constructor | Proyecto/js/utilidades.js:68-70 | `defPrivados()` starts with an empty store |
| Utilidades.Privados.Acceder | Proyecto/js/utilidades.js:72-77 | the object is in the store afterwards and its record is the one returned; a known object gets its stored record and the store does not change; a new object gets a fresh empty record added under it; every other entry is kept |
| Utilidades.AccederDosVeces | Proyecto/js/utilidades.js:72-77 | two calls for the same object return the same record, and the store then differs from the old one only at that object |
| Utilidades.EjecutarDerivado | Proyecto/js/utilidades.js:88-106 | JavaScript's rule for a constructor of a derived class: it completes only if `this` is bound, by a `super()` call, before it is used and before the end |
| Utilidades.UsaThisAntesDeSuper | Proyecto/js/utilidades.js:88-101 | a derived constructor that uses `this` before any `super()` call always ends in a ReferenceError |
| Utilidades.GeneralExceptionComoEscrito | Proyecto/js/utilidades.js:98-106 | the constructor as written, whose first statement reads `priv(this)`, throws a ReferenceError; with `super()` prepended it completes |
| Utilidades.GeneralException.constructor | Proyecto/js/utilidades.js:98-106 | code, name and message are stored as given; the stack is [funcion] for a non-empty funcion and empty otherwise |
| Utilidades.GeneralException.AgregarFuncion | Proyecto/js/utilidades.js:124-127 | the stack grows by exactly one entry, funcion, at the end; earlier entries and the other fields stay unchanged |
| JuegoCartas.Dimensiones | Proyecto/js/juegocartas.js:33-34 | `range(2, MAX_DIM+1, 2)` is [2, 4, 6, 8] |
| JuegoCartas.DimensionesPares | Proyecto/js/juegocartas.js:33-34 | every size in `dimensiones` is even and lies in [2, MAX_DIM] |
| JuegoCartas.ValoresIniciales | Proyecto/js/juegocartas.js:55-57 | the pool `valores.concat(valores)` has an even length 2·⌊d²/2⌋ and its second half repeats its first |
| JuegoCartas.ValoresInicialesPorPares | Proyecto/js/juegocartas.js:55-57 | the pool has 2·⌊d²/2⌋ values, d² for an even d, and holds each of 1 .. ⌊d²/2⌋ exactly twice and nothing else |
| JuegoCartas.Indice | Proyecto/js/juegocartas.js:66 | the drawn index is below the pool length while the pool is non-empty, and 0 when it is empty |
| JuegoCartas.Drawn | Proyecto/js/juegocartas.js:66-67 | a card gets a value exactly when the pool is non-empty, and that value comes from the pool |
| JuegoCartas.SpliceTail | Proyecto/js/juegocartas.js:68 | `splice(k)` leaves a prefix of the pool; a non-empty pool gets strictly shorter, and the part cut off starts with the value just drawn |
| JuegoCartas.SpliceOne | Proyecto/js/juegocartas.js:68 | `splice(k, 1)` shortens a non-empty pool by exactly one and leaves an empty pool empty |
| JuegoCartas.SpliceOneRemovesDrawn | Proyecto/js/juegocartas.js:66-68 | the value removed by `splice(k, 1)` is the value drawn: the multiset before equals the multiset after plus that value |
| JuegoCartas.PoolSplicingTail | Proyecto/js/juegocartas.js:59-68 | as written, the pool after any number of passes is a prefix of the initial pool |
| JuegoCartas.DealSplicingTail | Proyecto/js/juegocartas.js:59-68 | as written, the first n cards get n entries, and every value dealt comes from the initial pool |
| JuegoCartas.DealSplicingTailAt | Proyecto/js/juegocartas.js:59-68 | as written, card j gets the value drawn from the pool left after j passes |
| JuegoCartas.PoolSplicingTailShrinks | Proyecto/js/juegocartas.js:59-68 | as written, a later pool is a prefix of an earlier one, and while the later pool is still non-empty every pass in between has shortened it by at least one |
| JuegoCartas.DealSplicingTailRunsDry | Proyecto/js/juegocartas.js:59-68 | as written, only the first \|pool\| cards can get a value, every value comes from the pool, and once a card gets none, no later card gets one |
| JuegoCartas.DealSplicingTailCounterexample | Proyecto/js/juegocartas.js:55-68 | as written, a 2 × 2 board dealt with every draw 0.5 leaves the fourth card without a value |
| JuegoCartas.PoolRemovingOne | Proyecto/js/juegocartas.js:59-68 | with `splice(k, 1)`, after n passes the pool has \|pool\| − n values, or none once n exceeds \|pool\| |
| JuegoCartas.DealRemovingOne | Proyecto/js/juegocartas.js:59-68 | with `splice(k, 1)`, the first n cards get n entries, and card j gets a value exactly when j < \|pool\| |
| JuegoCartas.PoolRemovingOneDealsAll | Proyecto/js/juegocartas.js:59-68 | with `splice(k, 1)`, after n ≤ \|pool\| passes the pool has lost exactly n values and each of the first n cards has a value |
| JuegoCartas.PoolRemovingOneConserves | Proyecto/js/juegocartas.js:59-68 | with `splice(k, 1)`, the values dealt so far together with the remaining pool are exactly the initial pool, as multisets |
| JuegoCartas.DealRemovingOnePermutes | Proyecto/js/juegocartas.js:59-70 | with `splice(k, 1)` and one draw per value, every card gets a value and the values dealt are a permutation of the pool |
| JuegoCartas.DealRemovingOnePairs | Proyecto/js/juegocartas.js:55-70 | with `splice(k, 1)` on an even board, every card gets a value and each of 1 .. d²/2 lands on exactly two cards |
| JuegoCartas.Decimal | Proyecto/js/juegocartas.js:64 | the decimal text of a number is non-empty, made of digits only, and has two or more digits exactly for numbers ≥ 10 |
| JuegoCartas.DecimalInjective | Proyecto/js/juegocartas.js:64 | different numbers have different decimal texts |
| JuegoCartas.IdCartaInjective | Proyecto/js/juegocartas.js:64-65 | "carta"+i and "carta"+j differ for i ≠ j |
| JuegoCartas.IdCarta | Proyecto/js/juegocartas.js:64-65 | "carta"+i starts with "carta", followed by at least one character, all of them digits |
| JuegoCartas.NuevaCarta | Proyecto/js/juegocartas.js:61-67 | the new card has class "carta", id and name "carta"+i, and the value given |
| JuegoCartas.IdsDistintas | Proyecto/js/juegocartas.js:59-65 | cards numbered 1, 2, … in order have pairwise different ids |
| JuegoCartas.CrearTablero | Proyecto/js/juegocartas.js:51-73 | the loop as written makes d² cards; card i has class "carta" and id and name "carta"+i; the ids are pairwise different; the values dealt are DealSplicingTail of the initial pool |
| JuegoCartas.CrearTableroIntended | Proyecto/js/juegocartas.js:51-73 | the loop with `splice(k, 1)` makes the same d² numbered cards; the values dealt are DealRemovingOne of the initial pool; on an even board every card has a value and each of 1 .. d²/2 is on exactly two cards |

## Left out

- `parseInt` and the `NaN` checks in `range`, `crearTablero` and the start button: arguments are integers already parsed. The call `range(1, totalCartas/2 + 1)` is modelled with integer division, which is what `parseInt` of that positive value gives.
- `String(...)` and `Number(...)` coercions in `GeneralException`: the fields are typed `string` and `int`, and a function name is a string. A non-string falsy `funcion` such as 0 is therefore not modelled.
- The private-record indirection of `GeneralException` (`priv(this)`) is not modelled: the fields live in the object itself. The weak references of the `WeakMap` in `defPrivados`, and its garbage collection, are not modelled either: `Privados` holds an ordinary map.
- The `toString` methods: text formatting only.
- The `ArgumentosException` and `ObjetoDOMException` classes (utilidades.js:137-278): message tables whose code does not run as written.
- The `ObjetoDOM` wrapper (utilidades.js:284-332): a thin getter/setter over a DOM node.
- DOM and dialog work: `document.getElementById`, `createElement`, `appendChild`, `window.load`, the button handlers, `alert` and `confirm`. `CrearTablero` returns the cards it would append. The `tablero === null` and `carta === null` early returns of `crearTablero` are not modelled.
- The empty `limpiarTablero`, which does nothing.
- The start-button validation at juegocartas.js:106-129. As written it tests `.value` on numbers and calls the misspelled `isNan`.
- CrearTablero and CrearTableroIntended require 2 ≤ dimension, the lower bound the start button is meant to enforce (juegocartas.js:110). Smaller dimensions are not modelled.
- CrearTablero: its pool is `range`'s promised values [1 .. d²/2] twice over, not the holes `Array(n).map` leaves (see the first finding), so only the `splice(k)` defect of the loop is modelled as written.
- DimensionesPares: like Dimensiones, it is about `range`'s promised values, not the holes `Array(n).map` leaves.
- GeneralException.constructor: models the constructor with `super()` called first. The constructor as written throws a ReferenceError on every call (see Findings and GeneralExceptionComoEscrito).
- `Math.random()` is a parameter: one draw in [0, 1) per card.
- Indice: floating-point products are taken as exact reals. `parseInt` of a product that prints in exponent notation (a draw below 1e-6 times a short pool) is not modelled.
- Range: models the values the doc comment promises, not the holes `Array(n).map` leaves. The holes are modelled separately by RangeHolesUpTo and RangeHolesBetween (see Findings). Lengths above 2^32 − 1, where `Array(n)` also throws a RangeError, and arguments beyond 2^53, where doubles round, are not modelled; the game calls `range` with lengths of at most 33.

## Findings

| source | as written | input that shows it | evidently intended | confidence | as-written member | corrected member |
|---|---|---|---|---|---|---|
| Proyecto/js/utilidades.js:35 | `Array(n).map(f)`: `map` skips the holes of `Array(n)`, so every slot stays empty (also at line 42 and juegocartas.js:22, 29) | `range(3)` gives three empty slots instead of [0, 1, 2] | slot i holds i·paso, or ini + i·paso with fin | not executed | Utilidades.RangeHolesUpTo | Utilidades.RangeUpTo |
| Proyecto/js/utilidades.js:40 | `fin <= ini*signo` compares fin with ini·sign(paso) only (also juegocartas.js:27) | `range(0, 5, -1)` throws a RangeError; `range(5, -10, -1)` returns null | reject unless fin lies beyond ini in the step's direction: `fin*signo <= ini*signo` | not executed | Utilidades.RangeNegativeStepCounterexample | Utilidades.RangeIntendedDescending |
| Proyecto/js/juegocartas.js:68 | `valores.splice(k)` removes every value from index k to the end | a 2 × 2 board with every draw 0.5: the pool goes [1, 2, 1, 2] → [1, 2] → [1] → [] and the fourth card gets no value | `valores.splice(k, 1)`, removing only the drawn value | not executed | JuegoCartas.DealSplicingTailCounterexample | JuegoCartas.DealRemovingOnePairs |
| Proyecto/js/utilidades.js:101 | the constructor of a class extending `Error` (line 88) reads `this` through `priv(this)` without calling `super()` first | `new GeneralException()` throws a ReferenceError | call `super()` before using `this` | not executed | Utilidades.GeneralExceptionComoEscrito | Utilidades.GeneralException.constructor |
