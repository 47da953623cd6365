/**
 * The default orderings declared in the Meta classes of models.py: recipes
 * newest first by publication date, ingredients by name. A listing is the
 * table's records put in that order by insertion sort.
 */
module Ordering {
  import opened Models

  /** A relation every pair is comparable under, and transitive. */
  ghost predicate TotalPreorder<T(!new)>(le: (T, T) -> bool) {
    && (forall a, b :: le(a, b) || le(b, a))
    && (forall a, b, c :: le(a, b) && le(b, c) ==> le(a, c))
  }

  predicate SortedBy<T>(s: seq<T>, le: (T, T) -> bool) {
    forall i, j :: 0 <= i < j < |s| ==> le(s[i], s[j])
  }

  /** Puts x before the first element it may precede. */
  function Insert<T(!new)>(x: T, s: seq<T>, le: (T, T) -> bool): (r: seq<T>)
    requires TotalPreorder(le)
    requires SortedBy(s, le)
    ensures multiset(r) == multiset(s) + multiset{x}
    ensures SortedBy(r, le)
    decreases |s|
  {
    if s == [] || le(x, s[0]) then
      assert forall j :: 0 <= j < |s| ==> le(x, s[j]) by {
        forall j | 0 <= j < |s| ensures le(x, s[j]) {
          if j > 0 {
            assert le(s[0], s[j]);
          }
        }
      }
      [x] + s
    else
      var rest := Insert(x, s[1..], le);
      assert s == [s[0]] + s[1..];
      assert forall k :: 0 <= k < |rest| ==> le(s[0], rest[k]) by {
        forall k | 0 <= k < |rest| ensures le(s[0], rest[k]) {
          assert rest[k] in multiset(rest);
          if rest[k] != x {
            assert rest[k] in multiset(s[1..]);
            var j :| 0 <= j < |s[1..]| && s[1..][j] == rest[k];
            assert le(s[0], s[j + 1]);
          }
        }
      }
      [s[0]] + rest
  }

  /** Insertion sort: a permutation of the input, in order. */
  function Sort<T(!new)>(s: seq<T>, le: (T, T) -> bool): (r: seq<T>)
    requires TotalPreorder(le)
    ensures multiset(r) == multiset(s)
    ensures SortedBy(r, le)
    decreases |s|
  {
    if s == [] then []
    else
      assert s == [s[0]] + s[1..];
      Insert(s[0], Sort(s[1..], le), le)
  }

  /** ordering = ['-pub_date']: a recipe may come before any recipe published no later. */
  predicate PublishedNoEarlier(a: Recipe, b: Recipe) {
    a.pubDate >= b.pubDate
  }

  lemma PublishedNoEarlierIsTotalPreorder()
    ensures TotalPreorder(PublishedNoEarlier)
  {
  }

  /** The recipe listing: the same recipes, newest first. */
  function NewestFirst(recipes: seq<Recipe>): (r: seq<Recipe>)
    ensures multiset(r) == multiset(recipes)
    ensures forall i, j :: 0 <= i < j < |r| ==> r[i].pubDate >= r[j].pubDate
  {
    PublishedNoEarlierIsTotalPreorder();
    Sort(recipes, PublishedNoEarlier)
  }

  /** Lexicographic order on names, character by character. */
  predicate NameLe(a: string, b: string) {
    a == [] || (b != [] && (a[0] < b[0] || (a[0] == b[0] && NameLe(a[1..], b[1..]))))
  }

  lemma {:induction false} NameLeTotal(a: string, b: string)
    ensures NameLe(a, b) || NameLe(b, a)
  {
    if a != [] && b != [] && a[0] == b[0] {
      NameLeTotal(a[1..], b[1..]);
    }
  }

  lemma {:induction false} NameLeTransitive(a: string, b: string, c: string)
    requires NameLe(a, b) && NameLe(b, c)
    ensures NameLe(a, c)
  {
    if a != [] && b != [] && c != [] && a[0] == b[0] && b[0] == c[0] {
      NameLeTransitive(a[1..], b[1..], c[1..]);
    }
  }

  /** ordering = ['name']: an ingredient may come before any ingredient whose name is not smaller. */
  predicate NamedNoLater(a: Ingredient, b: Ingredient) {
    NameLe(a.name, b.name)
  }

  lemma NamedNoLaterIsTotalPreorder()
    ensures TotalPreorder(NamedNoLater)
  {
    forall a: Ingredient, b: Ingredient ensures NamedNoLater(a, b) || NamedNoLater(b, a) {
      NameLeTotal(a.name, b.name);
    }
    forall a: Ingredient, b: Ingredient, c: Ingredient | NamedNoLater(a, b) && NamedNoLater(b, c)
      ensures NamedNoLater(a, c)
    {
      NameLeTransitive(a.name, b.name, c.name);
    }
  }

  /** The ingredient listing: the same ingredients, in name order. */
  function ByName(ingredients: seq<Ingredient>): (r: seq<Ingredient>)
    ensures multiset(r) == multiset(ingredients)
    ensures forall i, j :: 0 <= i < j < |r| ==> NameLe(r[i].name, r[j].name)
  {
    NamedNoLaterIsTotalPreorder();
    Sort(ingredients, NamedNoLater)
  }
}
