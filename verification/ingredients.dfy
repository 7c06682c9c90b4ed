/** The shopping list: the ingredient rows of the chosen dishes, summed per (ingredient, unit). */
module Ingredients {
  import opened Text
  import opened Seqs
  import opened Menus

  /** One row of the ingredients table: `menu`, `ingredients`, `units`, `number`. */
  datatype IngredientRow = IngredientRow(menu: string, ingredient: string, unit: string, number: real)

  /** One line of the result. */
  datatype Ingredient = Ingredient(name: string, number: real, unit: string)

  /** The group-by key. */
  type Key = (string, string)

  function RowKey(row: IngredientRow): Key
  {
    (row.ingredient, row.unit)
  }

  function EntryKey(e: Ingredient): Key
  {
    (e.name, e.unit)
  }

  /** The order pandas gives the groups: by ingredient, then by unit. */
  predicate KeyLess(a: Key, b: Key)
  {
    StrLess(a.0, b.0) || (a.0 == b.0 && StrLess(a.1, b.1))
  }

  lemma KeyLessTransitive(a: Key, b: Key, c: Key)
    requires KeyLess(a, b) && KeyLess(b, c)
    ensures KeyLess(a, c)
  {
    if StrLess(a.0, b.0) && StrLess(b.0, c.0) {
      StrLessTransitive(a.0, b.0, c.0);
    } else if a.0 == b.0 && b.0 == c.0 {
      StrLessTransitive(a.1, b.1, c.1);
    }
  }

  lemma KeyLessTotal(a: Key, b: Key)
    requires a != b
    ensures KeyLess(a, b) || KeyLess(b, a)
  {
    if a.0 != b.0 {
      StrLessTotal(a.0, b.0);
    } else {
      StrLessTotal(a.1, b.1);
    }
  }

  lemma KeyLessIrreflexive(a: Key)
    ensures !KeyLess(a, a)
  {
    StrLessIrreflexive(a.0);
    StrLessIrreflexive(a.1);
  }

  predicate StrictlyAscending(keys: seq<Key>)
  {
    forall i, j :: 0 <= i < j < |keys| ==> KeyLess(keys[i], keys[j])
  }

  lemma BelowHeadBelowAll(k: Key, keys: seq<Key>)
    requires StrictlyAscending(keys) && |keys| > 0 && KeyLess(k, keys[0])
    ensures StrictlyAscending([k] + keys)
  {
    forall j | 0 <= j < |keys|
      ensures KeyLess(k, keys[j])
    {
      if j > 0 {
        KeyLessTransitive(k, keys[0], keys[j]);
      }
    }
  }

  /** Insertion into a strictly ascending key list, keeping one copy of each key. */
  function InsertKey(keys: seq<Key>, k: Key): (r: seq<Key>)
    requires StrictlyAscending(keys)
    ensures StrictlyAscending(r)
    ensures forall x :: x in r <==> x in keys || x == k
  {
    if |keys| == 0 then [k]
    else if k == keys[0] then keys
    else if KeyLess(k, keys[0]) then
      BelowHeadBelowAll(k, keys);
      [k] + keys
    else
      KeyLessTotal(k, keys[0]);
      var rest := InsertKey(keys[1..], k);
      assert forall x :: x in rest ==> KeyLess(keys[0], x) by {
        forall x | x in rest ensures KeyLess(keys[0], x) {
          if x != k {
            var j :| 0 <= j < |keys[1..]| && keys[1..][j] == x;
            assert keys[j + 1] == x;
          }
        }
      }
      assert forall j :: 0 <= j < |rest| ==> rest[j] in rest;
      [keys[0]] + rest
  }

  /** The group-by keys of the rows, row for row. */
  function KeysOf(rows: seq<IngredientRow>): (ks: seq<Key>)
    ensures |ks| == |rows|
    ensures forall i :: 0 <= i < |rows| ==> ks[i] == RowKey(rows[i])
  {
    seq(|rows|, i requires 0 <= i < |rows| => RowKey(rows[i]))
  }

  /** The distinct group-by keys of the rows, in ascending order. */
  function DistinctKeys(rows: seq<IngredientRow>): (keys: seq<Key>)
    ensures StrictlyAscending(keys)
    ensures forall k :: k in keys <==> k in KeysOf(rows)
  {
    if |rows| == 0 then []
    else
      assert KeysOf(rows) == [RowKey(rows[0])] + KeysOf(rows[1..]);
      InsertKey(DistinctKeys(rows[1..]), RowKey(rows[0]))
  }

  /** The sum of `number` over the rows with this key. */
  function SumFor(rows: seq<IngredientRow>, key: Key): real
  {
    if |rows| == 0 then 0.0
    else (if RowKey(rows[0]) == key then rows[0].number else 0.0) + SumFor(rows[1..], key)
  }

  /** The sum of `number` over all the rows. */
  function Total(rows: seq<IngredientRow>): real
  {
    if |rows| == 0 then 0.0 else rows[0].number + Total(rows[1..])
  }

  function HasKey(key: Key): IngredientRow -> bool
  {
    (row: IngredientRow) => RowKey(row) == key
  }

  /** A group's sum takes in only the rows of that exact (ingredient, unit): the same
      ingredient under another unit adds nothing to it. */
  lemma {:induction false} SumForIsTotalOfGroup(rows: seq<IngredientRow>, key: Key)
    ensures SumFor(rows, key) == Total(Select(rows, HasKey(key)))
  {
    if |rows| > 0 {
      SumForIsTotalOfGroup(rows[1..], key);
    }
  }

  function MenuNames(menus: seq<Menu>): (names: seq<string>)
    ensures forall n :: n in names <==> exists m :: m in menus && m.name == n
  {
    var names := seq(|menus|, i requires 0 <= i < |menus| => menus[i].name);
    assert forall m :: m in menus ==> m.name in names by {
      forall m | m in menus ensures m.name in names {
        var i :| 0 <= i < |menus| && menus[i] == m;
        assert names[i] == m.name;
      }
    }
    names
  }

  function ListedIn(names: seq<string>): IngredientRow -> bool
  {
    (row: IngredientRow) => row.menu in names
  }

  /** `df[df["menu"].isin(menu_names)]`. */
  function Contributing(table: seq<IngredientRow>, menus: seq<Menu>): (rows: seq<IngredientRow>)
    ensures forall row :: row in rows <==> row in table && exists m :: m in menus && m.name == row.menu
  {
    Select(table, ListedIn(MenuNames(menus)))
  }

  /** The filter keeps every matching row as often as the table holds it, in table order, so
      the sums below see each repeated row in full. */
  lemma ContributingCounts(table: seq<IngredientRow>, menus: seq<Menu>)
    ensures IsSubsequence(Contributing(table, menus), table)
    ensures forall row ::
      multiset(Contributing(table, menus))[row] == if row.menu in MenuNames(menus) then multiset(table)[row] else 0
  {
    SelectIsSubsequence(table, ListedIn(MenuNames(menus)));
    SelectCounts(table, ListedIn(MenuNames(menus)));
  }

  function EntryKeys(entries: seq<Ingredient>): (ks: seq<Key>)
    ensures |ks| == |entries|
    ensures forall i :: 0 <= i < |entries| ==> ks[i] == EntryKey(entries[i])
  {
    seq(|entries|, i requires 0 <= i < |entries| => EntryKey(entries[i]))
  }

  /** `groupby(["ingredients", "units"])["number"].sum()`: one entry per distinct key of the
      contributing rows, in ascending key order, each holding the sum of its group. */
  function Aggregate(table: seq<IngredientRow>, menus: seq<Menu>): (entries: seq<Ingredient>)
    ensures StrictlyAscending(EntryKeys(entries))
    ensures forall k :: k in EntryKeys(entries) <==> k in KeysOf(Contributing(table, menus))
    ensures forall e :: e in entries ==> e.number == SumFor(Contributing(table, menus), EntryKey(e))
    ensures |menus| == 0 ==> entries == []
  {
    var rows := Contributing(table, menus);
    var keys := DistinctKeys(rows);
    var entries := seq(|keys|, i requires 0 <= i < |keys| => Ingredient(keys[i].0, SumFor(rows, keys[i]), keys[i].1));
    assert EntryKeys(entries) == keys;
    entries
  }

  /** Each distinct (ingredient, unit) has exactly one entry. */
  lemma OneEntryPerKey(table: seq<IngredientRow>, menus: seq<Menu>, i: nat, j: nat)
    requires i < j < |Aggregate(table, menus)|
    ensures EntryKey(Aggregate(table, menus)[i]) != EntryKey(Aggregate(table, menus)[j])
  {
    var entries := Aggregate(table, menus);
    assert KeyLess(EntryKeys(entries)[i], EntryKeys(entries)[j]);
    KeyLessIrreflexive(EntryKey(entries[i]));
  }

  /** Membership is by `isin`: only the set of chosen names matters, so a dish listed twice
      contributes its rows once. */
  lemma SameNamesSameAggregate(table: seq<IngredientRow>, a: seq<Menu>, b: seq<Menu>)
    requires forall n :: n in MenuNames(a) <==> n in MenuNames(b)
    ensures Aggregate(table, a) == Aggregate(table, b)
  {
    SelectCongruent(table, ListedIn(MenuNames(a)), ListedIn(MenuNames(b)));
  }

  lemma RepeatedDishCountsOnce(table: seq<IngredientRow>, menus: seq<Menu>, m: Menu)
    requires m in menus
    ensures Aggregate(table, menus + [m]) == Aggregate(table, menus)
  {
    forall n ensures n in MenuNames(menus + [m]) <==> n in MenuNames(menus) {
      if n in MenuNames(menus + [m]) {
        var d :| d in menus + [m] && d.name == n;
        assert d in menus;
      }
      if n in MenuNames(menus) {
        var d :| d in menus && d.name == n;
        assert d in menus + [m];
      }
    }
    SameNamesSameAggregate(table, menus + [m], menus);
  }

  /** Pairwise different keys among the rows. */
  predicate DistinctRowKeys(rows: seq<IngredientRow>)
  {
    forall i, j :: 0 <= i < j < |rows| ==> RowKey(rows[i]) != RowKey(rows[j])
  }

  lemma {:induction false} SumOfUniqueKey(rows: seq<IngredientRow>, i: nat)
    requires DistinctRowKeys(rows) && i < |rows|
    ensures SumFor(rows, RowKey(rows[i])) == rows[i].number
  {
    if i == 0 {
      SumWithoutKey(rows[1..], RowKey(rows[0]));
    } else {
      SumOfUniqueKey(rows[1..], i - 1);
    }
  }

  lemma {:induction false} SumWithoutKey(rows: seq<IngredientRow>, key: Key)
    requires forall i :: 0 <= i < |rows| ==> RowKey(rows[i]) != key
    ensures SumFor(rows, key) == 0.0
  {
    if |rows| > 0 {
      SumWithoutKey(rows[1..], key);
    }
  }

  function AsIngredient(row: IngredientRow): Ingredient
  {
    Ingredient(row.ingredient, row.number, row.unit)
  }

  /** When the contributing rows have pairwise different keys (a single dish, say), the
      entries are exactly those rows. */
  lemma DistinctRowsAreEntries(table: seq<IngredientRow>, menus: seq<Menu>)
    requires DistinctRowKeys(Contributing(table, menus))
    ensures forall e :: e in Aggregate(table, menus) <==> exists row :: row in Contributing(table, menus) && e == AsIngredient(row)
  {
    var rows := Contributing(table, menus);
    var entries := Aggregate(table, menus);
    forall e | e in entries
      ensures exists row :: row in rows && e == AsIngredient(row)
    {
      var i :| 0 <= i < |entries| && entries[i] == e;
      assert EntryKeys(entries)[i] in EntryKeys(entries);
      assert EntryKey(e) in KeysOf(rows);
      var j :| 0 <= j < |rows| && KeysOf(rows)[j] == EntryKey(e);
      SumOfUniqueKey(rows, j);
      assert rows[j] in rows && e == AsIngredient(rows[j]);
    }
    forall row | row in rows
      ensures AsIngredient(row) in entries
    {
      var j :| 0 <= j < |rows| && rows[j] == row;
      assert KeysOf(rows)[j] in KeysOf(rows);
      assert RowKey(row) in EntryKeys(entries);
      var i :| 0 <= i < |entries| && EntryKeys(entries)[i] == RowKey(row);
      assert entries[i] in entries;
      SumOfUniqueKey(rows, j);
      assert entries[i] == AsIngredient(row);
    }
  }

  /** `f"{name} {number}{unit}"`; how a number is printed is left to `show`. The name is the
      line's first word whenever it holds no space, and a line holds a newline only if one of
      its parts does. */
  function EntryLines(entries: seq<Ingredient>, show: real -> string): (lines: seq<string>)
    ensures |lines| == |entries|
    ensures forall i :: 0 <= i < |lines| && ' ' !in entries[i].name ==>
      FirstToken(lines[i]) == entries[i].name
    ensures forall i :: 0 <= i < |lines| ==>
      ('\n' in lines[i] <==>
        '\n' in entries[i].name || '\n' in show(entries[i].number) || '\n' in entries[i].unit)
  {
    var lines := seq(|entries|, i requires 0 <= i < |entries| =>
      entries[i].name + " " + show(entries[i].number) + entries[i].unit);
    forall i | 0 <= i < |lines|
      ensures ' ' !in entries[i].name ==> FirstToken(lines[i]) == entries[i].name
      ensures '\n' in lines[i] <==>
        '\n' in entries[i].name || '\n' in show(entries[i].number) || '\n' in entries[i].unit
    {
      var rest := show(entries[i].number) + entries[i].unit;
      assert lines[i] == entries[i].name + " " + rest;
      if ' ' !in entries[i].name {
        FirstTokenOfLine(entries[i].name, rest);
      }
    }
    lines
  }

  /** No newline in any part of a line: the display then splits back into its lines. */
  predicate NewlineFree(entries: seq<Ingredient>, show: real -> string)
  {
    forall i :: 0 <= i < |entries| ==>
      && '\n' !in entries[i].name
      && '\n' !in show(entries[i].number)
      && '\n' !in entries[i].unit
  }

  /** Newline-free, and names without a space: each line's first word is then its name. */
  predicate Printable(entries: seq<Ingredient>, show: real -> string)
  {
    && NewlineFree(entries, show)
    && forall i :: 0 <= i < |entries| ==> ' ' !in entries[i].name
  }

  /** `get_ingredients_for_menus` from the filter on: the entries and their display, one line
      `name + " " + number + unit` per entry. */
  function IngredientsForMenus(table: seq<IngredientRow>, menus: seq<Menu>, show: real -> string)
    : (r: (seq<Ingredient>, string))
    ensures r.0 == Aggregate(table, menus)
    ensures |menus| == 0 ==> r.0 == []
    ensures r.0 == [] ==> r.1 == ""
    ensures |r.0| > 0 && NewlineFree(r.0, show) ==> Split(r.1, '\n') == EntryLines(r.0, show)
    ensures |r.0| > 0 && Printable(r.0, show) ==>
      forall i :: 0 <= i < |r.0| ==> FirstToken(Split(r.1, '\n')[i]) == r.0[i].name
  {
    var entries := Aggregate(table, menus);
    var lines := EntryLines(entries, show);
    if |entries| > 0 && NewlineFree(entries, show) then
      SplitJoin(lines, '\n');
      (entries, Join(lines, '\n'))
    else
      (entries, Join(lines, '\n'))
  }

  /** Two stews that each need one onion give a single line of two onions. */
  lemma TwoStewsShareOnions(beefStew: Menu, creamStew: Menu)
    requires beefStew.name == "ビーフシチュー" && creamStew.name == "クリームシチュー"
    ensures Aggregate([IngredientRow("ビーフシチュー", "玉ねぎ", "個", 1.0),
                       IngredientRow("クリームシチュー", "玉ねぎ", "個", 1.0),
                       IngredientRow("肉じゃが", "玉ねぎ", "個", 1.0)],
                      [beefStew, creamStew])
         == [Ingredient("玉ねぎ", 2.0, "個")]
  {
    var table := [IngredientRow("ビーフシチュー", "玉ねぎ", "個", 1.0),
                  IngredientRow("クリームシチュー", "玉ねぎ", "個", 1.0),
                  IngredientRow("肉じゃが", "玉ねぎ", "個", 1.0)];
    var menus := [beefStew, creamStew];
    var rows := Contributing(table, menus);
    assert "肉じゃが" != beefStew.name && "肉じゃが" != creamStew.name;
    assert rows == table[..2];
    var onion: Key := ("玉ねぎ", "個");
    assert DistinctKeys(rows[1..]) == InsertKey([], onion) == [onion];
    assert DistinctKeys(rows) == InsertKey([onion], onion) == [onion];
    assert SumFor(rows, onion) == 1.0 + SumFor(rows[1..], onion) == 2.0;
  }
}
