/**
 * The sort control shared by the two tables (`handleSort` in
 * `src/components/ScheduledPostsTable.tsx` and `src/components/CampaignsTable.tsx`):
 * a sort field and a direction, the sign a comparator takes in each
 * direction, and the keys the columns compare, ordered as JavaScript's `<`
 * orders them.
 */
module TableSort {
  import opened Builtins

  datatype Direction = Asc | Desc

  datatype SortState<F> = SortState(field: F, direction: Direction)

  function Flip(d: Direction): (r: Direction)
    ensures r != d
  {
    if d == Asc then Desc else Asc
  }

  /**
   * Choosing a column: the same column toggles the direction, another column
   * becomes the sort field in ascending order.
   */
  function HandleSort<F(==)>(s: SortState<F>, f: F): (r: SortState<F>)
    ensures r.field == f
    ensures s.field == f ==> r.direction != s.direction
    ensures s.field != f ==> r.direction == Asc
  {
    if s.field == f then s.(direction := Flip(s.direction)) else SortState(f, Asc)
  }

  /** Choosing the sorted column twice restores the sort. */
  lemma ToggleTwice<F>(s: SortState<F>)
    ensures HandleSort(HandleSort(s, s.field), s.field) == s
  {
  }

  /** Choosing a new column twice sorts it descending. */
  lemma NewColumnTwice<F>(s: SortState<F>, f: F)
    requires s.field != f
    ensures HandleSort(HandleSort(s, f), f) == SortState(f, Desc)
  {
  }

  /** A comparator's answer in the chosen direction: as is for `asc`, negated for `desc`. */
  function Directed(d: Direction, c: int): (r: int)
    ensures d == Asc ==> r == c
    ensures d == Desc ==> r == -c
  {
    if d == Asc then c else -c
  }

  /** The value a column sorts by: a string, or a number (a time in ms, NaN when the date is invalid). */
  datatype Key = Text(s: string) | Time(t: Num)

  function TimeOf(d: Date): (r: Num)
    ensures r.N? <==> d.At?
  {
    if d.At? then N(d.ms) else NaN
  }

  /** JavaScript's `<` on two strings or two numbers; false whenever NaN is involved. */
  predicate KeyLess(a: Key, b: Key) {
    match (a, b)
    case (Text(x), Text(y)) => StrLess(x, y)
    case (Time(N(x)), Time(N(y))) => x < y
    case _ => false
  }

  /** Two keys of one kind, neither of them NaN. */
  predicate Comparable(a: Key, b: Key) {
    (a.Text? && b.Text?) || (a.Time? && b.Time? && a.t.N? && b.t.N?)
  }

  lemma KeyLessAsymmetric(a: Key, b: Key)
    ensures KeyLess(a, b) ==> !KeyLess(b, a)
  {
    if a.Text? && b.Text? && StrLess(a.s, b.s) {
      StrLessAsymmetric(a.s, b.s);
    }
  }

  /** Between comparable keys, "not greater" chains. */
  lemma KeyChain(a: Key, b: Key, c: Key)
    requires Comparable(a, b) && Comparable(b, c)
    requires !KeyLess(b, a) && !KeyLess(c, b)
    ensures !KeyLess(c, a)
  {
    if a.Text? {
      if StrLess(c.s, a.s) {
        if a.s == b.s {
        } else {
          StrLessTotal(a.s, b.s);
          StrLessTransitive(c.s, a.s, b.s);
        }
      }
    }
  }
}
