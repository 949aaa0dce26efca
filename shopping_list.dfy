/**
 * The shopping list of `download_shopping_cart` (`api/views.py`): the amounts of
 * the recipes in a user's cart, grouped by (ingredient name, measurement unit)
 * and summed, then rendered as a text document.
 */
module ShoppingList {
  import opened Users
  import opened Recipes

  /** The grouping key: ingredient name and measurement unit. */
  datatype Key = Key(name: string, unit: string)

  /** One IngredientAmount row joined with its ingredient. */
  datatype Entry = Entry(key: Key, amount: int)

  /** One line of the list: a key and the summed amount. */
  datatype Group = Group(key: Key, total: int)

  datatype Document = Document(filename: string, text: string)

  // ---------------------------------------------------------------- the query

  /** The recipes in `user`'s shopping cart. */
  function CartOf(db: Db, user: UserId): (ids: set<RecipeId>)
    ensures forall k :: k in ids <==> (user, k) in db.carts
  {
    set m | m in db.carts && m.0 == user :: m.1
  }

  function EntryOf(ingredients: map<IngredientId, Ingredient>, row: IngredientAmount): Entry
    requires row.ingredient in ingredients
  {
    var i := ingredients[row.ingredient];
    Entry(Key(i.name, i.measurementUnit), row.amount)
  }

  /** Every row's ingredient exists (the foreign key of `IngredientAmount.ingredient`). */
  predicate IngredientsKnown(ingredients: map<IngredientId, Ingredient>, rows: seq<IngredientAmount>)
  {
    forall k :: 0 <= k < |rows| ==> rows[k].ingredient in ingredients
  }

  /** The IngredientAmount rows whose recipe is in `cart`, joined with their ingredient, in stored order. */
  function CartEntries(ingredients: map<IngredientId, Ingredient>, rows: seq<IngredientAmount>, cart: set<RecipeId>): (r: seq<Entry>)
    requires IngredientsKnown(ingredients, rows)
    ensures |r| <= |rows|
    ensures forall k :: 0 <= k < |rows| && rows[k].recipe in cart ==> EntryOf(ingredients, rows[k]) in r
    ensures forall e :: e in r ==> exists k :: 0 <= k < |rows| && rows[k].recipe in cart && e == EntryOf(ingredients, rows[k])
  {
    if rows == [] then []
    else
      var rest := CartEntries(ingredients, rows[1..], cart);
      assert forall k :: 1 <= k < |rows| ==> rows[k] == rows[1..][k - 1];
      if rows[0].recipe in cart then [EntryOf(ingredients, rows[0])] + rest else rest
  }

  // ---------------------------------------------------------- the reference sum

  /** The sum of the amounts of the entries with key `k`. */
  function SumFor(entries: seq<Entry>, k: Key): int
  {
    if entries == [] then 0
    else
      var last := entries[|entries| - 1];
      SumFor(entries[..|entries| - 1], k) + (if last.key == k then last.amount else 0)
  }

  predicate HasKey(entries: seq<Entry>, k: Key)
  {
    exists e :: e in entries && e.key == k
  }

  lemma {:induction false} SumForConcat(s: seq<Entry>, t: seq<Entry>, k: Key)
    ensures SumFor(s + t, k) == SumFor(s, k) + SumFor(t, k)
    decreases |t|
  {
    if t == [] {
      assert s + t == s;
    } else {
      assert (s + t)[..|s + t| - 1] == s + t[..|t| - 1];
      SumForConcat(s, t[..|t| - 1], k);
    }
  }

  /** The sum for a key does not depend on the order of the entries. */
  lemma {:induction false} SumForPermutation(a: seq<Entry>, b: seq<Entry>, k: Key)
    requires multiset(a) == multiset(b)
    ensures SumFor(a, k) == SumFor(b, k)
    decreases |a|
  {
    if a == [] {
      assert |b| == |multiset(b)| == 0;
    } else {
      var n := |a| - 1;
      var x := a[n];
      assert a == a[..n] + [x];
      assert x in multiset(b);
      var j :| 0 <= j < |b| && b[j] == x;
      var b' := b[..j] + b[j + 1..];
      assert b == b[..j] + [x] + b[j + 1..];
      assert multiset(b') == multiset(b) - multiset{x};
      assert multiset(a[..n]) == multiset(a) - multiset{x};
      SumForPermutation(a[..n], b', k);
      SumForConcat(b[..j] + [x], b[j + 1..], k);
      SumForConcat(b[..j], [x], k);
      SumForConcat(b[..j], b[j + 1..], k);
      assert SumFor([x], k) == (if x.key == k then x.amount else 0) by {
        assert [x][..0] == [];
      }
    }
  }

  /**
   * Reference total, straight over the stored rows: the sum of `amount` over the
   * rows of recipes in `cart` whose ingredient has name and unit `k`.
   */
  function RowTotal(ingredients: map<IngredientId, Ingredient>, rows: seq<IngredientAmount>, cart: set<RecipeId>, k: Key): int
    requires IngredientsKnown(ingredients, rows)
  {
    if rows == [] then 0
    else
      var row := rows[0];
      var ingredient := ingredients[row.ingredient];
      assert IngredientsKnown(ingredients, rows[1..]) by {
        assert forall j :: 0 <= j < |rows[1..]| ==> rows[1..][j] == rows[j + 1];
      }
      (if row.recipe in cart && Key(ingredient.name, ingredient.measurementUnit) == k then row.amount else 0)
        + RowTotal(ingredients, rows[1..], cart, k)
  }

  /** The joined entries carry, for every key, exactly the stored rows' total. */
  lemma {:induction false} CartEntriesSum(ingredients: map<IngredientId, Ingredient>, rows: seq<IngredientAmount>, cart: set<RecipeId>, k: Key)
    requires IngredientsKnown(ingredients, rows)
    ensures SumFor(CartEntries(ingredients, rows, cart), k) == RowTotal(ingredients, rows, cart, k)
  {
    if rows != [] {
      assert IngredientsKnown(ingredients, rows[1..]) by {
        assert forall j :: 0 <= j < |rows[1..]| ==> rows[1..][j] == rows[j + 1];
      }
      var rest := CartEntries(ingredients, rows[1..], cart);
      CartEntriesSum(ingredients, rows[1..], cart, k);
      if rows[0].recipe in cart {
        var e := EntryOf(ingredients, rows[0]);
        SumForConcat([e], rest, k);
        assert SumFor([e], k) == (if e.key == k then e.amount else 0) by {
          assert [e][..0] == [];
        }
      }
    }
  }

  /** Reference count, straight over the stored rows: how many rows of recipes in `cart` join to `e`. */
  function RowCount(ingredients: map<IngredientId, Ingredient>, rows: seq<IngredientAmount>, cart: set<RecipeId>, e: Entry): nat
    requires IngredientsKnown(ingredients, rows)
  {
    if rows == [] then 0
    else
      assert IngredientsKnown(ingredients, rows[1..]) by {
        assert forall j :: 0 <= j < |rows[1..]| ==> rows[1..][j] == rows[j + 1];
      }
      (if rows[0].recipe in cart && EntryOf(ingredients, rows[0]) == e then 1 else 0)
        + RowCount(ingredients, rows[1..], cart, e)
  }

  /** Each joined entry occurs exactly as many times as there are cart rows that join to it. */
  lemma {:induction false} CartEntriesCount(ingredients: map<IngredientId, Ingredient>, rows: seq<IngredientAmount>, cart: set<RecipeId>, e: Entry)
    requires IngredientsKnown(ingredients, rows)
    ensures multiset(CartEntries(ingredients, rows, cart))[e] == RowCount(ingredients, rows, cart, e)
  {
    if rows != [] {
      assert IngredientsKnown(ingredients, rows[1..]) by {
        assert forall j :: 0 <= j < |rows[1..]| ==> rows[1..][j] == rows[j + 1];
      }
      var rest := CartEntries(ingredients, rows[1..], cart);
      CartEntriesCount(ingredients, rows[1..], cart, e);
      if rows[0].recipe in cart {
        var x := EntryOf(ingredients, rows[0]);
        assert multiset([x] + rest) == multiset([x]) + multiset(rest);
      }
    }
  }

  /** Joining two runs of rows joins each run. */
  lemma {:induction false} CartEntriesConcat(ingredients: map<IngredientId, Ingredient>, s: seq<IngredientAmount>, t: seq<IngredientAmount>, cart: set<RecipeId>)
    requires IngredientsKnown(ingredients, s) && IngredientsKnown(ingredients, t)
    ensures IngredientsKnown(ingredients, s + t)
    ensures CartEntries(ingredients, s + t, cart) == CartEntries(ingredients, s, cart) + CartEntries(ingredients, t, cart)
  {
    assert forall j :: 0 <= j < |s + t| ==> (s + t)[j] == if j < |s| then s[j] else t[j - |s|];
    if s == [] {
      assert s + t == t;
    } else {
      assert IngredientsKnown(ingredients, s[1..]) by {
        assert forall j :: 0 <= j < |s[1..]| ==> s[1..][j] == s[j + 1];
      }
      assert (s + t)[1..] == s[1..] + t;
      CartEntriesConcat(ingredients, s[1..], t, cart);
    }
  }

  /** Taking row j out of `rows` takes its entry out of the joined entries. */
  lemma CartEntriesWithout(ingredients: map<IngredientId, Ingredient>, rows: seq<IngredientAmount>, j: nat, cart: set<RecipeId>)
    requires IngredientsKnown(ingredients, rows)
    requires j < |rows|
    ensures IngredientsKnown(ingredients, rows[..j] + rows[j + 1..])
    ensures multiset(CartEntries(ingredients, rows, cart))
         == multiset(CartEntries(ingredients, [rows[j]], cart)) + multiset(CartEntries(ingredients, rows[..j] + rows[j + 1..], cart))
  {
    var before, x, after := rows[..j], rows[j], rows[j + 1..];
    assert rows == before + ([x] + after);
    assert IngredientsKnown(ingredients, before) by {
      assert forall i :: 0 <= i < |before| ==> before[i] == rows[i];
    }
    assert IngredientsKnown(ingredients, after) by {
      assert forall i :: 0 <= i < |after| ==> after[i] == rows[j + 1 + i];
    }
    assert IngredientsKnown(ingredients, [x]);
    CartEntriesConcat(ingredients, before, after, cart);
    CartEntriesConcat(ingredients, [x], after, cart);
    CartEntriesConcat(ingredients, before, [x] + after, cart);
    var eb, ex, ea := CartEntries(ingredients, before, cart), CartEntries(ingredients, [x], cart), CartEntries(ingredients, after, cart);
    assert CartEntries(ingredients, rows, cart) == eb + (ex + ea);
    assert CartEntries(ingredients, before + after, cart) == eb + ea;
    assert multiset(eb + (ex + ea)) == multiset(ex) + multiset(eb + ea);
  }

  /**
   * The joined entries do not depend on the order the rows are stored in: any
   * permutation of the rows gives a permutation of the entries.
   */
  lemma {:induction false} CartEntriesPermutation(ingredients: map<IngredientId, Ingredient>, a: seq<IngredientAmount>, b: seq<IngredientAmount>, cart: set<RecipeId>)
    requires IngredientsKnown(ingredients, a) && IngredientsKnown(ingredients, b)
    requires multiset(a) == multiset(b)
    ensures multiset(CartEntries(ingredients, a, cart)) == multiset(CartEntries(ingredients, b, cart))
    decreases |a|
  {
    if a == [] {
      assert |b| == |multiset(b)| == 0;
    } else {
      var x := a[0];
      assert x in multiset(b);
      var j :| 0 <= j < |b| && b[j] == x;
      var restA, restB := a[..0] + a[1..], b[..j] + b[j + 1..];
      RemoveMatching(a, b, j);
      CartEntriesWithout(ingredients, a, 0, cart);
      CartEntriesWithout(ingredients, b, j, cart);
      CartEntriesPermutation(ingredients, restA, restB, cart);
      PermutationStep(ingredients, a, b, j, cart);
    }
  }

  /** The inductive step: rows with the same first row removed give the same entries, so the rows do. */
  lemma PermutationStep(ingredients: map<IngredientId, Ingredient>, a: seq<IngredientAmount>, b: seq<IngredientAmount>, j: nat, cart: set<RecipeId>)
    requires IngredientsKnown(ingredients, a) && IngredientsKnown(ingredients, b)
    requires a != [] && j < |b| && b[j] == a[0]
    requires IngredientsKnown(ingredients, a[..0] + a[1..]) && IngredientsKnown(ingredients, b[..j] + b[j + 1..])
    requires multiset(CartEntries(ingredients, a[..0] + a[1..], cart)) == multiset(CartEntries(ingredients, b[..j] + b[j + 1..], cart))
    ensures multiset(CartEntries(ingredients, a, cart)) == multiset(CartEntries(ingredients, b, cart))
  {
    CartEntriesWithout(ingredients, a, 0, cart);
    CartEntriesWithout(ingredients, b, j, cart);
    assert [b[j]] == [a[0]];
  }

  /** Removing the same element from two permutations leaves two permutations. */
  lemma RemoveMatching<T>(a: seq<T>, b: seq<T>, j: nat)
    requires a != [] && j < |b| && b[j] == a[0]
    requires multiset(a) == multiset(b)
    ensures multiset(a[..0] + a[1..]) == multiset(b[..j] + b[j + 1..])
  {
    MultisetWithout(a, 0);
    MultisetWithout(b, j);
  }

  lemma MultisetWithout<T>(s: seq<T>, j: nat)
    requires j < |s|
    ensures multiset(s[..j] + s[j + 1..]) == multiset(s) - multiset{s[j]}
  {
    assert s == s[..j] + [s[j]] + s[j + 1..];
  }

  // --------------------------------------------------------- the aggregation

  predicate GroupKeysDistinct(groups: seq<Group>)
  {
    forall i, j :: 0 <= i < j < |groups| ==> groups[i].key != groups[j].key
  }

  predicate HasGroup(groups: seq<Group>, k: Key)
  {
    exists g :: g in groups && g.key == k
  }

  /** The total listed for key `k`, or 0 when no group has that key. */
  function TotalOf(groups: seq<Group>, k: Key): int
  {
    if groups == [] then 0
    else if groups[0].key == k then groups[0].total
    else TotalOf(groups[1..], k)
  }

  /** Adds one entry to its group, opening a new group at the end for a new key. */
  function AddEntry(groups: seq<Group>, e: Entry): (r: seq<Group>)
    requires GroupKeysDistinct(groups)
    ensures GroupKeysDistinct(r)
    ensures forall k :: HasGroup(r, k) <==> HasGroup(groups, k) || k == e.key
    ensures forall k :: TotalOf(r, k) == TotalOf(groups, k) + (if k == e.key then e.amount else 0)
    ensures |r| <= |groups| + 1
  {
    if groups == [] then [Group(e.key, e.amount)]
    else
      assert forall g :: g in groups <==> g == groups[0] || g in groups[1..];
      assert forall g :: g in groups[1..] ==> g.key != groups[0].key by {
        forall g | g in groups[1..] ensures g.key != groups[0].key {
          var m :| 0 <= m < |groups[1..]| && groups[1..][m] == g;
          assert groups[m + 1] == g;
        }
      }
      if groups[0].key == e.key then
        var r := [groups[0].(total := groups[0].total + e.amount)] + groups[1..];
        assert forall g :: g in r <==> g == r[0] || g in groups[1..];
        assert forall k :: TotalOf(r, k) == TotalOf(groups, k) + (if k == e.key then e.amount else 0) by {
          forall k ensures TotalOf(r, k) == TotalOf(groups, k) + (if k == e.key then e.amount else 0) {
            assert r[1..] == groups[1..];
          }
        }
        r
      else
        var rest := AddEntry(groups[1..], e);
        var r := [groups[0]] + rest;
        assert forall g :: g in r <==> g == groups[0] || g in rest;
        assert r[1..] == rest;
        assert GroupKeysDistinct(r) by {
          forall i, j | 0 <= i < j < |r| ensures r[i].key != r[j].key {
            if i == 0 {
              assert r[j] in rest;
              assert HasGroup(rest, r[j].key);
            }
          }
        }
        assert forall k :: HasGroup(r, k) <==> HasGroup(groups, k) || k == e.key by {
          forall k ensures HasGroup(r, k) <==> HasGroup(groups, k) || k == e.key {
            if HasGroup(groups, k) && k != groups[0].key {
              var g :| g in groups && g.key == k;
              assert HasGroup(groups[1..], k);
            }
            if HasGroup(rest, k) {
              var g :| g in rest && g.key == k;
              assert g in r;
            }
          }
        }
        r
  }

  /** The total listed for a group's key is that group's total. */
  lemma {:induction false} TotalOfMember(groups: seq<Group>, g: Group)
    requires GroupKeysDistinct(groups)
    requires g in groups
    ensures TotalOf(groups, g.key) == g.total
  {
    if groups[0] != g {
      assert g in groups[1..];
      var m :| 0 <= m < |groups[1..]| && groups[1..][m] == g;
      assert groups[m + 1] == g;
      TotalOfMember(groups[1..], g);
    }
  }

  /**
   * `values(name, unit).annotate(Sum('amount'))`: one group per distinct key of
   * the entries, in order of first appearance, each holding the sum of its
   * entries' amounts.
   */
  function Aggregate(entries: seq<Entry>): (groups: seq<Group>)
    ensures GroupKeysDistinct(groups)
    ensures forall k :: HasGroup(groups, k) <==> HasKey(entries, k)
    ensures forall k :: TotalOf(groups, k) == SumFor(entries, k)
    ensures |groups| <= |entries|
  {
    if entries == [] then []
    else
      var n := |entries| - 1;
      assert forall e :: e in entries <==> e in entries[..n] || e == entries[n] by {
        assert entries == entries[..n] + [entries[n]];
      }
      AddEntry(Aggregate(entries[..n]), entries[n])
  }

  /** A line is listed exactly for each key present, with the sum of that key's amounts. */
  lemma AggregateGroups(entries: seq<Entry>, g: Group)
    ensures g in Aggregate(entries) <==> HasKey(entries, g.key) && g.total == SumFor(entries, g.key)
  {
    var groups := Aggregate(entries);
    if g in groups {
      TotalOfMember(groups, g);
    } else if HasKey(entries, g.key) {
      var h :| h in groups && h.key == g.key;
      TotalOfMember(groups, h);
    }
  }

  /** A sequence without repetitions holds each of its elements exactly once. */
  lemma {:induction false} DistinctGroupsOnce(groups: seq<Group>, g: Group)
    requires GroupKeysDistinct(groups)
    ensures multiset(groups)[g] == if g in groups then 1 else 0
  {
    if groups != [] {
      assert groups == [groups[0]] + groups[1..];
      assert GroupKeysDistinct(groups[1..]) by {
        forall i, j | 0 <= i < j < |groups[1..]| ensures groups[1..][i].key != groups[1..][j].key {
          assert groups[1..][i] == groups[i + 1] && groups[1..][j] == groups[j + 1];
        }
      }
      DistinctGroupsOnce(groups[1..], g);
      assert forall x :: x in groups[1..] ==> x.key != groups[0].key by {
        forall x | x in groups[1..] ensures x.key != groups[0].key {
          var m :| 0 <= m < |groups[1..]| && groups[1..][m] == x;
          assert groups[m + 1] == x;
        }
      }
    }
  }

  /**
   * The shopping list does not depend on the order of the rows: the same
   * ingredients in the cart's recipes, in any order, give the same groups with
   * the same totals, each once.
   */
  lemma AggregateIndependentOfOrder(a: seq<Entry>, b: seq<Entry>)
    requires multiset(a) == multiset(b)
    ensures multiset(Aggregate(a)) == multiset(Aggregate(b))
  {
    var ga, gb := Aggregate(a), Aggregate(b);
    forall g ensures multiset(ga)[g] == multiset(gb)[g] {
      AggregateGroups(a, g);
      AggregateGroups(b, g);
      SumForPermutation(a, b, g.key);
      assert HasKey(a, g.key) <==> HasKey(b, g.key) by {
        assert forall e :: e in a <==> e in multiset(a);
        assert forall e :: e in b <==> e in multiset(b);
      }
      DistinctGroupsOnce(ga, g);
      DistinctGroupsOnce(gb, g);
    }
  }

  /** Some stored row of a cart recipe uses an ingredient with name and unit `k`. */
  predicate HasCartRow(ingredients: map<IngredientId, Ingredient>, rows: seq<IngredientAmount>, cart: set<RecipeId>, k: Key)
    requires IngredientsKnown(ingredients, rows)
  {
    exists j :: 0 <= j < |rows| && rows[j].recipe in cart && EntryOf(ingredients, rows[j]).key == k
  }

  /**
   * The download's lines, stated over the stored rows: a (key, total) line is
   * listed exactly when some row of a cart recipe has that key, and its total is
   * the sum of `amount` over all such rows.
   */
  lemma ShoppingListRowTotals(ingredients: map<IngredientId, Ingredient>, rows: seq<IngredientAmount>, cart: set<RecipeId>, g: Group)
    requires IngredientsKnown(ingredients, rows)
    ensures g in Aggregate(CartEntries(ingredients, rows, cart))
        <==> HasCartRow(ingredients, rows, cart, g.key) && g.total == RowTotal(ingredients, rows, cart, g.key)
  {
    var entries := CartEntries(ingredients, rows, cart);
    AggregateGroups(entries, g);
    CartEntriesSum(ingredients, rows, cart, g.key);
    if HasKey(entries, g.key) {
      var e :| e in entries && e.key == g.key;
      var j :| 0 <= j < |rows| && rows[j].recipe in cart && e == EntryOf(ingredients, rows[j]);
    }
    if HasCartRow(ingredients, rows, cart, g.key) {
      var j :| 0 <= j < |rows| && rows[j].recipe in cart && EntryOf(ingredients, rows[j]).key == g.key;
      assert EntryOf(ingredients, rows[j]) in entries;
    }
  }

  /** Storing the same IngredientAmount rows in another order gives the same lines, each once. */
  lemma ShoppingListIndependentOfRowOrder(ingredients: map<IngredientId, Ingredient>, a: seq<IngredientAmount>, b: seq<IngredientAmount>, cart: set<RecipeId>)
    requires IngredientsKnown(ingredients, a) && IngredientsKnown(ingredients, b)
    requires multiset(a) == multiset(b)
    ensures multiset(Aggregate(CartEntries(ingredients, a, cart))) == multiset(Aggregate(CartEntries(ingredients, b, cart)))
  {
    CartEntriesPermutation(ingredients, a, b, cart);
    AggregateIndependentOfOrder(CartEntries(ingredients, a, cart), CartEntries(ingredients, b, cart));
  }

  /** Two recipes in the cart each needing salt in grams: one line, with the amounts added. */
  lemma SameIngredientMerged()
    ensures Aggregate([Entry(Key("Соль", "г"), 5), Entry(Key("Соль", "г"), 3)]) == [Group(Key("Соль", "г"), 8)]
  {
    var salt := Key("Соль", "г");
    assert [Entry(salt, 5), Entry(salt, 3)][..1] == [Entry(salt, 5)];
    assert [Entry(salt, 5)][..0] == [];
  }

  // -------------------------------------------------------------- rendering

  function DigitChar(d: nat): char
    requires d < 10
  {
    "0123456789"[d]
  }

  predicate IsDigit(c: char)
  {
    '0' <= c <= '9'
  }

  predicate AllDigits(s: string)
  {
    forall i :: 0 <= i < |s| ==> IsDigit(s[i])
  }

  /** An optional minus sign followed by at least one decimal digit. */
  predicate IsNumeral(s: string)
  {
    && |s| > 0
    && (s[0] == '-' ==> |s| > 1 && AllDigits(s[1..]))
    && (s[0] != '-' ==> AllDigits(s))
  }

  /** Decimal notation of a non-negative integer, as Python's `str` gives it. */
  function NatToString(n: nat): (s: string)
    ensures |s| > 0
    ensures AllDigits(s)
    ensures s[0] == '0' ==> n == 0
  {
    if n < 10 then [DigitChar(n)] else NatToString(n / 10) + [DigitChar(n % 10)]
  }

  function IntToString(i: int): string
  {
    if i < 0 then "-" + NatToString(-i) else NatToString(i)
  }

  function DigitValue(c: char): (d: nat)
    requires IsDigit(c)
    ensures d < 10
  {
    (c as int) - ('0' as int)
  }

  function ParseNat(s: string): nat
    requires AllDigits(s)
  {
    if s == [] then 0
    else ParseNat(s[..|s| - 1]) * 10 + DigitValue(s[|s| - 1])
  }

  function ParseInt(s: string): int
    requires IsNumeral(s)
  {
    var magnitude: int := if s[0] == '-' then ParseNat(s[1..]) else ParseNat(s);
    if s[0] == '-' then -magnitude else magnitude
  }

  lemma {:induction false} NatToStringRoundTrip(n: nat)
    ensures ParseNat(NatToString(n)) == n
  {
    if n >= 10 {
      var s := NatToString(n);
      assert s[..|s| - 1] == NatToString(n / 10);
      NatToStringRoundTrip(n / 10);
    }
  }

  /** Reading back the printed amount gives the amount. */
  lemma IntToStringRoundTrip(i: int)
    ensures IsNumeral(IntToString(i)) && ParseInt(IntToString(i)) == i
  {
    if i < 0 {
      NegativeRoundTrip(i);
    } else {
      NonNegativeRoundTrip(i);
    }
  }

  lemma NegativeRoundTrip(i: int)
    requires i < 0
    ensures IsNumeral(IntToString(i)) && ParseInt(IntToString(i)) == i
  {
    var digits := NatToString(-i);
    NatToStringRoundTrip(-i);
    var s := "-" + digits;
    assert s[0] == '-' && s[1..] == digits;
    assert IntToString(i) == s;
  }

  lemma NonNegativeRoundTrip(i: int)
    requires i >= 0
    ensures IsNumeral(IntToString(i)) && ParseInt(IntToString(i)) == i
  {
    var digits := NatToString(i);
    NatToStringRoundTrip(i);
    assert IsDigit(digits[0]);
    assert IntToString(i) == digits;
  }

  const Title := "Список покупок для:\n\n"
  const Footer := "\n\nПосчитано в Foodgram"

  function Header(firstName: string): string
  {
    Title + firstName + "\n\n"
  }

  /** `"<name>: <total> <unit>\n"`. */
  function Line(g: Group): string
  {
    g.key.name + ": " + IntToString(g.total) + " " + g.key.unit + "\n"
  }

  /** The rendered items one after another. */
  function Join<T>(items: seq<T>, render: T -> string): string
  {
    if items == [] then "" else Join(items[..|items| - 1], render) + render(items[|items| - 1])
  }

  function Lines(groups: seq<Group>): string
  {
    Join(groups, Line)
  }

  function ShoppingListText(firstName: string, groups: seq<Group>): string
  {
    Header(firstName) + Lines(groups) + Footer
  }

  function FileName(username: string): string
  {
    username + "_shopping_list.txt"
  }

  lemma {:induction false} JoinConcat<T>(s: seq<T>, t: seq<T>, render: T -> string)
    ensures Join(s + t, render) == Join(s, render) + Join(t, render)
    decreases |t|
  {
    if t == [] {
      assert s + t == s;
    } else {
      var n := |t| - 1;
      var st, front := s + t, s + t[..n];
      assert st[..|st| - 1] == front;
      assert st[|st| - 1] == t[n];
      JoinConcat(s, t[..n], render);
    }
  }

  /** Rendering items 0..i and then item i gives the rendering of items 0..i+1. */
  lemma JoinStep<T>(items: seq<T>, i: nat, render: T -> string)
    requires i < |items|
    ensures Join(items[..i], render) + render(items[i]) == Join(items[..i + 1], render)
  {
    var prefix := items[..i + 1];
    assert prefix[..|prefix| - 1] == items[..i];
    assert prefix[|prefix| - 1] == items[i];
  }

  /** Item i's rendering sits between the renderings of the items before and after it. */
  lemma JoinSplit<T>(items: seq<T>, i: nat, render: T -> string)
    requires i < |items|
    ensures Join(items, render) == Join(items[..i], render) + render(items[i]) + Join(items[i + 1..], render)
  {
    var before, x, from, rest := items[..i], items[i], items[i..], items[i + 1..];
    assert before + from == items;
    assert [x] + rest == from;
    var jb, jx, jr := Join(before, render), render(x), Join(rest, render);
    assert Join([x], render) == jx by {
      assert [x][..0] == [];
    }
    JoinConcat([x], rest, render);
    assert Join(from, render) == jx + jr;
    JoinConcat(before, from, render);
    assert Join(items, render) == jb + (jx + jr);
    ConcatAssoc(jb, jx, jr);
  }

  lemma ConcatAssoc<T>(a: seq<T>, b: seq<T>, c: seq<T>)
    ensures a + (b + c) == (a + b) + c
  {
  }

  /** Appending item i to a head and the rendered items 0..i gives the head and items 0..i+1. */
  lemma JoinAppend<T>(head: string, items: seq<T>, i: nat, render: T -> string)
    requires i < |items|
    ensures head + Join(items[..i], render) + render(items[i]) == head + Join(items[..i + 1], render)
  {
    JoinStep(items, i, render);
    ConcatAssoc(head, Join(items[..i], render), render(items[i]));
  }

  /** Where item i's rendering lies in a text made of a head, the rendered items and a foot. */
  lemma JoinLayout<T>(head: string, items: seq<T>, i: nat, render: T -> string, foot: string)
    requires i < |items|
    ensures var text := head + Join(items, render) + foot;
      var at := |head| + |Join(items[..i], render)|;
      && text[..|head|] == head
      && at + |render(items[i])| <= |text|
      && text[at..at + |render(items[i])|] == render(items[i])
      && text[|text| - |foot|..] == foot
  {
    JoinSplit(items, i, render);
    Segments(head, Join(items[..i], render), render(items[i]), Join(items[i + 1..], render), foot);
  }

  /**
   * The document is the header naming the user, then group i's line right after
   * the lines of groups 0..i-1, then the footer.
   */
  lemma ShoppingListLayout(firstName: string, groups: seq<Group>, i: nat)
    requires i < |groups|
    ensures var text := ShoppingListText(firstName, groups);
      var at := |Header(firstName)| + |Lines(groups[..i])|;
      && text[..|Header(firstName)|] == Header(firstName)
      && at + |Line(groups[i])| <= |text|
      && text[at..at + |Line(groups[i])|] == Line(groups[i])
      && text[|text| - |Footer|..] == Footer
  {
    JoinLayout(Header(firstName), groups, i, Line, Footer);
  }

  lemma Segments(h: string, a: string, l: string, z: string, f: string)
    ensures var t := h + (a + l + z) + f;
      && t[..|h|] == h
      && |h| + |a| + |l| <= |t|
      && t[|h| + |a|..|h| + |a| + |l|] == l
      && t[|t| - |f|..] == f
  {
  }

  /** Builds the document text line by line, as the view's loop does. */
  method RenderShoppingList(firstName: string, groups: seq<Group>) returns (text: string)
    ensures text == ShoppingListText(firstName, groups)
  {
    text := Header(firstName);
    var i := 0;
    while i < |groups|
      invariant 0 <= i <= |groups|
      invariant text == Header(firstName) + Lines(groups[..i])
    {
      JoinAppend(Header(firstName), groups, i, Line);
      text := text + Line(groups[i]);
      i := i + 1;
    }
    assert groups[..i] == groups;
    text := text + Footer;
  }
}
