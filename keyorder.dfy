/**
 * The ordering Python 2 uses for the sort keys of `sort_contribs`: keys are
 * tuples compared element by element (a proper prefix first), `None` is
 * below every other value, booleans are the numbers 0 and 1 (so a `False`
 * flag sorts before a `True` one), numbers below strings, and unicode
 * strings compare by code point.
 */
module KeyOrder {

  /** One component of a sort key. Datetimes are numbers on a time line. */
  datatype Atom = NoneAtom | Num(n: int) | Str(s: string)

  /** A sort key: a tuple; a key that is a single value is a one-element tuple. */
  type Key = seq<Atom>

  /** `bool` as Python 2 compares it. */
  function Flag(b: bool): Atom {
    Num(if b then 1 else 0)
  }

  /** Where each kind of value stands relative to the others. */
  function Rank(a: Atom): nat {
    match a
    case NoneAtom => 0
    case Num(_) => 1
    case Str(_) => 2
  }

  /** Code-point order on strings, a proper prefix first. */
  predicate StrLe(a: string, b: string) {
    a == [] || (b != [] && (a[0] < b[0] || (a[0] == b[0] && StrLe(a[1..], b[1..]))))
  }

  predicate AtomLe(x: Atom, y: Atom) {
    if Rank(x) != Rank(y) then Rank(x) < Rank(y)
    else match (x, y)
      case (Num(a), Num(b)) => a <= b
      case (Str(a), Str(b)) => StrLe(a, b)
      case _ => true
  }

  /** Tuple order: the first differing component decides, a proper prefix first. */
  predicate KeyLe(a: Key, b: Key) {
    a == [] || (b != [] && ((a[0] != b[0] && AtomLe(a[0], b[0])) || (a[0] == b[0] && KeyLe(a[1..], b[1..]))))
  }

  lemma {:induction false} StrLeTotal(a: string, b: string)
    ensures StrLe(a, b) || StrLe(b, a)
  {
    if a != [] && b != [] && a[0] == b[0] {
      StrLeTotal(a[1..], b[1..]);
    }
  }

  lemma {:induction false} StrLeAntisymmetric(a: string, b: string)
    requires StrLe(a, b) && StrLe(b, a)
    ensures a == b
  {
    if a != [] {
      StrLeAntisymmetric(a[1..], b[1..]);
      assert a == [a[0]] + a[1..] && b == [b[0]] + b[1..];
    }
  }

  lemma {:induction false} StrLeTransitive(a: string, b: string, c: string)
    requires StrLe(a, b) && StrLe(b, c)
    ensures StrLe(a, c)
  {
    if a != [] && a[0] == b[0] && b[0] == c[0] {
      StrLeTransitive(a[1..], b[1..], c[1..]);
    }
  }

  lemma AtomLeTotal(x: Atom, y: Atom)
    ensures AtomLe(x, y) || AtomLe(y, x)
  {
    if x.Str? && y.Str? {
      StrLeTotal(x.s, y.s);
    }
  }

  lemma AtomLeAntisymmetric(x: Atom, y: Atom)
    requires AtomLe(x, y) && AtomLe(y, x)
    ensures x == y
  {
    if x.Str? && y.Str? {
      StrLeAntisymmetric(x.s, y.s);
    }
  }

  lemma AtomLeTransitive(x: Atom, y: Atom, z: Atom)
    requires AtomLe(x, y) && AtomLe(y, z)
    ensures AtomLe(x, z)
  {
    if x.Str? && y.Str? && z.Str? {
      StrLeTransitive(x.s, y.s, z.s);
    }
  }

  lemma {:induction false} KeyLeReflexive(a: Key)
    ensures KeyLe(a, a)
  {
    if a != [] {
      KeyLeReflexive(a[1..]);
    }
  }

  /** Any two keys are comparable. */
  lemma {:induction false} KeyLeTotal(a: Key, b: Key)
    ensures KeyLe(a, b) || KeyLe(b, a)
  {
    if a != [] && b != [] {
      if a[0] == b[0] {
        KeyLeTotal(a[1..], b[1..]);
      } else {
        AtomLeTotal(a[0], b[0]);
      }
    }
  }

  /** Keys that are each below the other are equal. */
  lemma {:induction false} KeyLeAntisymmetric(a: Key, b: Key)
    requires KeyLe(a, b) && KeyLe(b, a)
    ensures a == b
  {
    if a != [] {
      if a[0] == b[0] {
        KeyLeAntisymmetric(a[1..], b[1..]);
        assert a == [a[0]] + a[1..] && b == [b[0]] + b[1..];
      } else {
        AtomLeAntisymmetric(a[0], b[0]);
      }
    }
  }

  lemma {:induction false} KeyLeTransitive(a: Key, b: Key, c: Key)
    requires KeyLe(a, b) && KeyLe(b, c)
    ensures KeyLe(a, c)
  {
    if a != [] && b != [] && c != [] {
      if a[0] == b[0] && b[0] == c[0] {
        KeyLeTransitive(a[1..], b[1..], c[1..]);
      } else if a[0] != b[0] && b[0] != c[0] {
        AtomLeTransitive(a[0], b[0], c[0]);
        if a[0] == c[0] {
          AtomLeAntisymmetric(a[0], b[0]);
        }
      }
    }
  }

  /** A key whose first component is a `False` flag sorts before every key
      whose first component is a `True` flag. */
  lemma FalseFlagFirst(a: Key, b: Key)
    requires a != [] && b != [] && a[0] == Flag(false) && b[0] == Flag(true)
    ensures KeyLe(a, b) && !KeyLe(b, a)
  {
  }

  /** How single values compare: `None` below numbers, numbers below
      strings, numbers by value and strings by code point. */
  lemma AtomOrder(n: int, m: int, s: string, t: string)
    ensures AtomLe(NoneAtom, Num(n)) && !AtomLe(Num(n), NoneAtom)
    ensures AtomLe(NoneAtom, Str(s)) && !AtomLe(Str(s), NoneAtom)
    ensures AtomLe(Num(n), Str(s)) && !AtomLe(Str(s), Num(m))
    ensures AtomLe(Num(n), Num(m)) <==> n <= m
    ensures AtomLe(Str(s), Str(t)) <==> StrLe(s, t)
  {
  }

  /** A tuple comes before every tuple it is a prefix of. */
  lemma {:induction false} PrefixFirst(a: Key, b: Key)
    ensures KeyLe(a, a + b)
  {
    if a != [] {
      assert (a + b)[1..] == a[1..] + b;
      PrefixFirst(a[1..], b);
    }
  }

  /** Two tuples that agree up to some position and differ there are
      ordered by the elements at that position. */
  lemma {:induction false} FirstDifferenceDecides(p: Key, x: Atom, y: Atom, c: Key, d: Key)
    requires x != y
    ensures KeyLe(p + [x] + c, p + [y] + d) <==> AtomLe(x, y)
  {
    if p != [] {
      assert (p + [x] + c)[1..] == p[1..] + [x] + c;
      assert (p + [y] + d)[1..] == p[1..] + [y] + d;
      FirstDifferenceDecides(p[1..], x, y, c, d);
    }
  }
}
