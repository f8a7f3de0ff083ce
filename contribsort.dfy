/**
 * `sort_contribs`: picks a key function from the sort selector and returns
 * the contributions sorted (stably, as Python's `sorted` is) by that key.
 * The schedule and session keys put "missing" first in the tuple as a flag,
 * `(x is None, x)`, so contributions without a start time, a session or a
 * speaker come after those that have one.
 */
module ContribSort {

  import opened Wrappers
  import opened PyStrings
  import opened KeyOrder

  /** A speaker, by the name `get_full_name(last_name_upper=False,
      abbrev_first_name=False)` gives. */
  datatype Person = Person(fullName: string)

  datatype Session = Session(title: string)

  /** The attributes of a contribution that the sort keys read. */
  datatype Contribution = Contribution(
    id: int,
    friendlyId: int,
    title: string,
    startDt: Option<int>,
    session: Option<Session>,
    speakers: seq<Person>,
    boardNumber: Option<string>)

  /** The `BOASortField` members `sort_contribs` tests for. */
  datatype SortField =
    | Schedule
    | SessionTitle
    | Speaker
    | BoardNumber
    | SessionBoardNumber
    | ScheduleBoardNumber
    | SessionScheduleBoard

  /** What a caller passes as `sort_by`: a field, a string, or anything else
      (such as `None`). */
  datatype Selector = Field(field: SortField) | Text(text: string) | NotText

  /** The key function chosen: one of the field keys, or `attrgetter(name)`. */
  datatype KeyChoice = ByField(field: SortField) | ByAttribute(name: string)

  datatype SortResult = Sorted(contribs: seq<Contribution>) | AttributeError(name: string)

  /** `mapping.get(sort_by) or sort_by` */
  function AttributeName(s: string): string {
    if s == "number" then "id" else if s == "name" then "title" else s
  }

  /** The `if`/`elif` chain of `sort_contribs`. */
  function ChooseKey(sortBy: Selector): KeyChoice {
    match sortBy
    case Field(f) => ByField(f)
    case Text(s) => if s != "" then ByAttribute(AttributeName(s)) else ByAttribute("title")
    case NotText => ByAttribute("title")
  }

  /** The attributes `attrgetter` can read on this model of a contribution. */
  predicate KnownAttribute(name: string) {
    name == "id" || name == "friendly_id" || name == "title" || name == "board_number" || name == "start_dt"
  }

  predicate KeyDefined(choice: KeyChoice) {
    choice.ByAttribute? ==> KnownAttribute(choice.name)
  }

  function TimeAtom(t: Option<int>): Atom {
    if t.None? then NoneAtom else Num(t.value)
  }

  /** `c.session.title.lower() if c.session else ''` */
  function SessionTitleAtom(s: Option<Session>): Atom {
    Str(if s.Some? then Lower(s.value.title) else "")
  }

  /** `c.board_number` as it is */
  function BoardAtom(b: Option<string>): Atom {
    if b.None? then NoneAtom else Str(b.value)
  }

  /** `c.board_number if c.board_number else ''` */
  function BoardOrEmpty(b: Option<string>): Atom {
    Str(b.GetOr(""))
  }

  /** `attrgetter(name)(c)` */
  function Attribute(c: Contribution, name: string): Atom {
    if name == "id" then Num(c.id)
    else if name == "friendly_id" then Num(c.friendlyId)
    else if name == "title" then Str(c.title)
    else if name == "board_number" then BoardAtom(c.boardNumber)
    else if name == "start_dt" then TimeAtom(c.startDt)
    else NoneAtom  // never read: an unknown attribute raises before any key is compared
  }

  /** The key `key_func` gives a contribution. */
  function SortKey(choice: KeyChoice, c: Contribution): Key {
    match choice
    case ByAttribute(name) => [Attribute(c, name)]
    case ByField(Schedule) => [Flag(c.startDt.None?), TimeAtom(c.startDt)]
    case ByField(SessionTitle) => [Flag(c.session.None?), SessionTitleAtom(c.session)]
    case ByField(Speaker) =>
      if c.speakers == [] then [Flag(true), NoneAtom]
      else [Flag(false), Str(Lower(c.speakers[0].fullName))]
    case ByField(BoardNumber) => [BoardAtom(c.boardNumber)]
    case ByField(SessionBoardNumber) =>
      [Flag(c.session.None?), SessionTitleAtom(c.session), BoardAtom(c.boardNumber)]
    case ByField(ScheduleBoardNumber) =>
      [Flag(c.startDt.None?), TimeAtom(c.startDt), BoardOrEmpty(c.boardNumber)]
    case ByField(SessionScheduleBoard) =>
      [Flag(c.session.None?), SessionTitleAtom(c.session),
       Flag(c.startDt.None?), TimeAtom(c.startDt), BoardOrEmpty(c.boardNumber)]
  }

  /** The key function as a value, as `sorted` receives it. */
  function KeyFunction(choice: KeyChoice): Contribution -> Key {
    c => SortKey(choice, c)
  }

  ghost predicate SortedBy<T>(key: T -> Key, s: seq<T>) {
    forall i, j :: 0 <= i < j < |s| ==> KeyLe(key(s[i]), key(s[j]))
  }

  /** Puts `x` before the first element whose key is not below its own. */
  function Insert<T>(key: T -> Key, x: T, s: seq<T>): seq<T> {
    if s == [] then [x]
    else if KeyLe(key(x), key(s[0])) then [x] + s
    else [s[0]] + Insert(key, x, s[1..])
  }

  /** `sorted(s, key=key)`, by insertion. */
  function Sort<T>(key: T -> Key, s: seq<T>): seq<T> {
    if s == [] then [] else Insert(key, s[0], Sort(key, s[1..]))
  }

  predicate AllAbove<T>(key: T -> Key, b: Key, s: seq<T>) {
    forall i :: 0 <= i < |s| ==> KeyLe(b, key(s[i]))
  }

  lemma {:induction false} InsertMultiset<T>(key: T -> Key, x: T, s: seq<T>)
    ensures multiset(Insert(key, x, s)) == multiset(s) + multiset{x}
  {
    if s != [] && !KeyLe(key(x), key(s[0])) {
      InsertMultiset(key, x, s[1..]);
      assert s == [s[0]] + s[1..];
    }
  }

  /** A lower bound of `x` and of every element of `s` bounds the result. */
  lemma {:induction false} InsertAbove<T>(key: T -> Key, b: Key, x: T, s: seq<T>)
    requires KeyLe(b, key(x)) && AllAbove(key, b, s)
    ensures AllAbove(key, b, Insert(key, x, s))
  {
    if s != [] && !KeyLe(key(x), key(s[0])) {
      assert AllAbove(key, b, s[1..]) by {
        forall i | 0 <= i < |s[1..]| ensures KeyLe(b, key(s[1..][i])) {
          assert s[1..][i] == s[i + 1];
        }
      }
      InsertAbove(key, b, x, s[1..]);
      var r := Insert(key, x, s);
      assert r == [s[0]] + Insert(key, x, s[1..]);
    }
  }

  lemma {:induction false} InsertSorted<T>(key: T -> Key, x: T, s: seq<T>)
    requires SortedBy(key, s)
    ensures SortedBy(key, Insert(key, x, s))
  {
    if s == [] {
    } else if KeyLe(key(x), key(s[0])) {
      var r := [x] + s;
      forall i, j | 0 <= i < j < |r| ensures KeyLe(key(r[i]), key(r[j])) {
        if i == 0 && j > 1 {
          KeyLeTransitive(key(x), key(s[0]), key(s[j - 1]));
        }
      }
    } else {
      var t := s[1..];
      assert SortedBy(key, t);
      InsertSorted(key, x, t);
      var it := Insert(key, x, t);
      KeyLeTotal(key(x), key(s[0]));
      assert AllAbove(key, key(s[0]), t) by {
        forall i | 0 <= i < |t| ensures KeyLe(key(s[0]), key(t[i])) {
          assert t[i] == s[i + 1];
        }
      }
      InsertAbove(key, key(s[0]), x, t);
      SortedCons(key, s[0], it);
    }
  }

  lemma SortedCons<T>(key: T -> Key, y: T, s: seq<T>)
    requires SortedBy(key, s) && AllAbove(key, key(y), s)
    ensures SortedBy(key, [y] + s)
  {
    var r := [y] + s;
    forall i, j | 0 <= i < j < |r| ensures KeyLe(key(r[i]), key(r[j])) {
      assert r[j] == s[j - 1];
      if i > 0 {
        assert r[i] == s[i - 1];
      }
    }
  }

  lemma InsertSpec<T>(key: T -> Key, x: T, s: seq<T>)
    requires SortedBy(key, s)
    ensures multiset(Insert(key, x, s)) == multiset(s) + multiset{x}
    ensures SortedBy(key, Insert(key, x, s))
  {
    InsertMultiset(key, x, s);
    InsertSorted(key, x, s);
  }

  /** The sort returns a permutation of its input, ordered by the key. */
  lemma {:induction false} SortSpec<T>(key: T -> Key, s: seq<T>)
    ensures multiset(Sort(key, s)) == multiset(s)
    ensures SortedBy(key, Sort(key, s))
  {
    if s != [] {
      SortSpec(key, s[1..]);
      InsertSpec(key, s[0], Sort(key, s[1..]));
      assert s == [s[0]] + s[1..];
    }
  }

  /** The elements of `s` whose key is `k`, in their order in `s`. */
  function WithKey<T>(key: T -> Key, k: Key, s: seq<T>): seq<T> {
    if s == [] then []
    else (if key(s[0]) == k then [s[0]] else []) + WithKey(key, k, s[1..])
  }

  lemma {:induction false} InsertStable<T>(key: T -> Key, k: Key, x: T, s: seq<T>)
    ensures WithKey(key, k, Insert(key, x, s)) == (if key(x) == k then [x] else []) + WithKey(key, k, s)
  {
    if s == [] {
      assert Insert(key, x, s) == [x];
      assert [x][1..] == [];
    } else if KeyLe(key(x), key(s[0])) {
      assert ([x] + s)[1..] == s;
    } else {
      InsertStable(key, k, x, s[1..]);
      KeyLeReflexive(key(x));
      SwapPast(key, k, x, s[0], s[1..], Insert(key, x, s[1..]));
    }
  }

  /** Moving `x` past an element with a different key does not change the
      elements of any one key. */
  lemma SwapPast<T>(key: T -> Key, k: Key, x: T, y: T, t: seq<T>, u: seq<T>)
    requires key(y) != key(x)
    requires WithKey(key, k, u) == (if key(x) == k then [x] else []) + WithKey(key, k, t)
    ensures WithKey(key, k, [y] + u) == (if key(x) == k then [x] else []) + WithKey(key, k, [y] + t)
  {
    assert ([y] + u)[1..] == u;
    assert ([y] + t)[1..] == t;
    var wy := if key(y) == k then [y] else [];
    var wx := if key(x) == k then [x] else [];
    assert wy == [] || wx == [];
    assert wy + (wx + WithKey(key, k, t)) == wx + (wy + WithKey(key, k, t));
  }

  /** Stability: elements with equal keys keep their input order. */
  lemma {:induction false} SortStable<T>(key: T -> Key, k: Key, s: seq<T>)
    ensures WithKey(key, k, Sort(key, s)) == WithKey(key, k, s)
  {
    if s != [] {
      SortStable(key, k, s[1..]);
      InsertStable(key, k, s[0], Sort(key, s[1..]));
    }
  }

  /** `sort_contribs(contribs, sort_by)`: a sorted permutation of the input,
      or the `AttributeError` that `attrgetter` raises for an attribute the
      contributions do not have (raised only if there is something to sort). */
  function SortContribs(contribs: seq<Contribution>, sortBy: Selector): (r: SortResult)
    ensures r.AttributeError? <==> contribs != [] && !KeyDefined(ChooseKey(sortBy))
    ensures r.AttributeError? ==> r.name == ChooseKey(sortBy).name
    ensures r.Sorted? ==> multiset(r.contribs) == multiset(contribs)
    ensures r.Sorted? ==> SortedBy(KeyFunction(ChooseKey(sortBy)), r.contribs)
  {
    var choice := ChooseKey(sortBy);
    if !KeyDefined(choice) && contribs != [] then
      AttributeError(choice.name)
    else
      SortSpec(KeyFunction(choice), contribs);
      Sorted(Sort(KeyFunction(choice), contribs))
  }

  /** The result depends on the selector only through the key it selects. */
  lemma SameKeySameResult(contribs: seq<Contribution>, a: Selector, b: Selector)
    requires ChooseKey(a) == ChooseKey(b)
    ensures SortContribs(contribs, a) == SortContribs(contribs, b)
  {
  }

  /** A string selector maps `number` to `id` and `name` to `title` and is
      otherwise the attribute name; an empty or non-string selector sorts by
      title. */
  lemma SelectorAliases(contribs: seq<Contribution>, s: string)
    ensures SortContribs(contribs, Text("number")) == SortContribs(contribs, Text("id"))
    ensures SortContribs(contribs, Text("name")) == SortContribs(contribs, Text("title"))
    ensures SortContribs(contribs, Text("")) == SortContribs(contribs, NotText) == SortContribs(contribs, Text("title"))
    ensures s != "number" && s != "name" && s != "" ==> ChooseKey(Text(s)) == ByAttribute(s)
  {
    SameKeySameResult(contribs, Text("number"), Text("id"));
    SameKeySameResult(contribs, Text("name"), Text("title"));
    SameKeySameResult(contribs, Text(""), NotText);
    SameKeySameResult(contribs, NotText, Text("title"));
  }

  /** Stability of `sort_contribs`: contributions with the same key come out
      in the order they went in. */
  lemma SortContribsStable(contribs: seq<Contribution>, sortBy: Selector, k: Key)
    requires SortContribs(contribs, sortBy).Sorted?
    ensures var key := KeyFunction(ChooseKey(sortBy));
            WithKey(key, k, SortContribs(contribs, sortBy).contribs) == WithKey(key, k, contribs)
  {
    SortStable(KeyFunction(ChooseKey(sortBy)), k, contribs);
  }

  /** The choices whose key begins with "has no start time" / "has no session" / "has no speaker". */
  predicate StartFirst(choice: KeyChoice) {
    choice == ByField(Schedule) || choice == ByField(ScheduleBoardNumber)
  }

  predicate SessionFirst(choice: KeyChoice) {
    choice == ByField(SessionTitle) || choice == ByField(SessionBoardNumber) || choice == ByField(SessionScheduleBoard)
  }

  /** In a sequence sorted by key, nothing whose key starts with `True`
      precedes something whose key starts with `False`. */
  lemma FlagOrderInSorted<T>(key: T -> Key, s: seq<T>, i: nat, j: nat)
    requires SortedBy(key, s) && i < j < |s|
    requires key(s[i]) != [] && key(s[j]) != [] && key(s[i])[0] == Flag(true)
    ensures key(s[j])[0] != Flag(false)
  {
    if key(s[j])[0] == Flag(false) {
      FalseFlagFirst(key(s[j]), key(s[i]));
    }
  }

  lemma StartFlag(choice: KeyChoice, c: Contribution)
    requires StartFirst(choice)
    ensures SortKey(choice, c) != [] && SortKey(choice, c)[0] == Flag(c.startDt.None?)
  {
  }

  lemma SessionFlag(choice: KeyChoice, c: Contribution)
    requires SessionFirst(choice)
    ensures SortKey(choice, c) != [] && SortKey(choice, c)[0] == Flag(c.session.None?)
  {
  }

  lemma SpeakerFlag(c: Contribution)
    ensures SortKey(ByField(Speaker), c) != [] && SortKey(ByField(Speaker), c)[0] == Flag(c.speakers == [])
  {
  }

  /** Missing values last: under the schedule orderings no contribution
      without a start time precedes one that has a start time. */
  lemma MissingStartLast(contribs: seq<Contribution>, sortBy: Selector, i: nat, j: nat)
    requires StartFirst(ChooseKey(sortBy))
    requires i < j < |SortContribs(contribs, sortBy).contribs|
    ensures var r := SortContribs(contribs, sortBy).contribs;
            r[i].startDt.None? ==> r[j].startDt.None?
  {
    var choice := ChooseKey(sortBy);
    var r := SortContribs(contribs, sortBy).contribs;
    StartFlag(choice, r[i]);
    StartFlag(choice, r[j]);
    if r[i].startDt.None? {
      FlagOrderInSorted(KeyFunction(choice), r, i, j);
    }
  }

  /** The same for the session under the session orderings. */
  lemma MissingSessionLast(contribs: seq<Contribution>, sortBy: Selector, i: nat, j: nat)
    requires SessionFirst(ChooseKey(sortBy))
    requires i < j < |SortContribs(contribs, sortBy).contribs|
    ensures var r := SortContribs(contribs, sortBy).contribs;
            r[i].session.None? ==> r[j].session.None?
  {
    var choice := ChooseKey(sortBy);
    var r := SortContribs(contribs, sortBy).contribs;
    SessionFlag(choice, r[i]);
    SessionFlag(choice, r[j]);
    if r[i].session.None? {
      FlagOrderInSorted(KeyFunction(choice), r, i, j);
    }
  }

  /** The same for speakers under the speaker ordering. */
  lemma MissingSpeakersLast(contribs: seq<Contribution>, sortBy: Selector, i: nat, j: nat)
    requires ChooseKey(sortBy) == ByField(Speaker)
    requires i < j < |SortContribs(contribs, sortBy).contribs|
    ensures var r := SortContribs(contribs, sortBy).contribs;
            r[i].speakers == [] ==> r[j].speakers == []
  {
    var choice := ChooseKey(sortBy);
    var r := SortContribs(contribs, sortBy).contribs;
    SpeakerFlag(r[i]);
    SpeakerFlag(r[j]);
    if r[i].speakers == [] {
      FlagOrderInSorted(KeyFunction(choice), r, i, j);
    }
  }
}
