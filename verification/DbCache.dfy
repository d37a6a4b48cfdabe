/**
 tools/cache/dbcache.go: a write-through cache of a database table. The struct
 type of the cached values is a list of fields with their `db` tags; a value is an
 object holding one value per field, all fields being exported. Statements sent to
 the database change an abstract table, or fail.
 */
module DbCache {
  import opened Bags

  datatype Field = Field(name: string, tag: string)

  datatype Value = Nil | Num(n: int) | Text(t: string)

  class Record {
    var vals: seq<Value>

    constructor (vals: seq<Value>)
      ensures this.vals == vals
    {
      this.vals := vals;
    }
  }

  // ---------- Tags ----------

  predicate Contains(s: string, sub: string) {
    exists i :: 0 <= i <= |s| && sub <= s[i..]
  }

  /** The part of a tag before its first comma. */
  function Column(f: Field): string {
    Cut(f.tag)
  }

  function Cut(tag: string): string {
    if tag == "" || tag[0] == ',' then "" else [tag[0]] + Cut(tag[1..])
  }

  lemma {:induction false} CutAtComma(tag: string)
    ensures Cut(tag) <= tag && ',' !in Cut(tag)
    ensures Cut(tag) == tag || tag[|Cut(tag)|] == ','
  {
    if tag != "" && tag[0] != ',' {
      CutAtComma(tag[1..]);
    }
  }

  predicate Tagged(f: Field) {
    f.tag != ""
  }

  predicate IsPrimary(f: Field) {
    Tagged(f) && Contains(f.tag, "primary")
  }

  /** Written by INSERT. */
  predicate Stored(f: Field) {
    Tagged(f) && !Contains(f.tag, "primary")
  }

  predicate Updated(f: Field) {
    Tagged(f) && Contains(f.tag, "update")
  }

  predicate Deleting(f: Field) {
    Tagged(f) && Contains(f.tag, "delete")
  }

  /** The options are looked for in the whole tag: of a tag that is just a column name, the name decides. */
  lemma NameAsOption(name: string, column: string)
    requires ',' !in column && column != ""
    ensures var f := Field(name, column); Column(f) == column && (IsPrimary(f) <==> Contains(column, "primary"))
  {
    CutAtComma(column);
  }

  /** The positions of the fields that satisfy `p`, in order. */
  function Positions(p: Field -> bool, fs: seq<Field>): seq<nat> {
    if fs == [] then [] else
      var n := |fs| - 1;
      Positions(p, fs[..n]) + if p(fs[n]) then [n] else []
  }

  lemma PositionsNext(p: Field -> bool, fs: seq<Field>, i: nat)
    requires i < |fs|
    ensures Positions(p, fs[..i + 1]) == Positions(p, fs[..i]) + if p(fs[i]) then [i] else []
  {
    assert fs[..i + 1][..i] == fs[..i];
  }

  lemma {:induction false} PositionsMean(p: Field -> bool, fs: seq<Field>)
    ensures forall j :: j in Positions(p, fs) <==> 0 <= j < |fs| && p(fs[j])
    ensures forall a, b :: 0 <= a < b < |Positions(p, fs)| ==> Positions(p, fs)[a] < Positions(p, fs)[b]
  {
    if fs != [] {
      var before := Positions(p, fs[..|fs| - 1]);
      PositionsMean(p, fs[..|fs| - 1]);
      assert forall a :: 0 <= a < |before| ==> before[a] in before;
    }
  }

  lemma {:induction false} PositionsPrefix(p: Field -> bool, fs: seq<Field>, i: nat)
    requires i <= |fs|
    ensures Positions(p, fs[..i]) <= Positions(p, fs)
    decreases |fs| - i
  {
    if i == |fs| {
      assert fs[..i] == fs;
    } else {
      PositionsNext(p, fs, i);
      PositionsPrefix(p, fs, i + 1);
    }
  }

  /** The field at position `i` is listed at the place that counts those before it. */
  lemma PositionOf(p: Field -> bool, fs: seq<Field>, i: nat)
    requires i < |fs| && p(fs[i])
    ensures var k := |Positions(p, fs[..i])|; k < |Positions(p, fs)| && Positions(p, fs)[k] == i
  {
    PositionsNext(p, fs, i);
    PositionsPrefix(p, fs, i + 1);
  }

  ghost function Columns(p: Field -> bool, fs: seq<Field>): seq<string> {
    if fs == [] then [] else
      var n := |fs| - 1;
      Columns(p, fs[..n]) + if p(fs[n]) then [Column(fs[n])] else []
  }

  lemma ColumnsNext(p: Field -> bool, fs: seq<Field>, i: nat)
    requires i < |fs|
    ensures Columns(p, fs[..i + 1]) == Columns(p, fs[..i]) + if p(fs[i]) then [Column(fs[i])] else []
  {
    assert fs[..i + 1][..i] == fs[..i];
  }

  lemma {:induction false} ColumnsAt(p: Field -> bool, fs: seq<Field>)
    ensures |Columns(p, fs)| == |Positions(p, fs)|
    ensures forall k :: 0 <= k < |Columns(p, fs)| ==>
              Positions(p, fs)[k] < |fs| && Columns(p, fs)[k] == Column(fs[Positions(p, fs)[k]])
  {
    if fs != [] {
      ColumnsAt(p, fs[..|fs| - 1]);
    }
  }

  ghost predicate DistinctNames(fs: seq<Field>) {
    forall i, j :: 0 <= i < j < |fs| ==> fs[i].name != fs[j].name
  }

  ghost predicate DistinctColumns(fs: seq<Field>) {
    forall i, j :: 0 <= i < j < |fs| && Tagged(fs[i]) && Tagged(fs[j]) ==> Column(fs[i]) != Column(fs[j])
  }

  datatype Layout = Layout(
    fields: seq<string>,
    nameMap: map<string, nat>,
    tagToName: map<string, string>,
    updateKeys: seq<string>,
    updateNames: set<string>,
    deleteKeys: seq<string>,
    primary: string)

  ghost predicate LastWith(fs: seq<Field>, c: string, j: int) {
    && 0 <= j < |fs| && Tagged(fs[j]) && Column(fs[j]) == c
    && forall k :: j < k < |fs| && Tagged(fs[k]) ==> Column(fs[k]) != c
  }

  ghost predicate LastPrimary(fs: seq<Field>, j: int) {
    0 <= j < |fs| && IsPrimary(fs[j]) && forall k :: j < k < |fs| ==> !IsPrimary(fs[k])
  }

  // What the scan of the tags promises about the first `n` of the fields `fs`.

  /** Each list has the columns of its fields, in the order of the fields. */
  ghost predicate ListsOk(l: Layout, fs: seq<Field>, n: nat)
    requires n <= |fs|
  {
    && l.fields == Columns(Stored, fs[..n])
    && l.updateKeys == Columns(Updated, fs[..n])
    && l.deleteKeys == Columns(Deleting, fs[..n])
  }

  /** The index of a stored field is the number of stored fields before it. */
  ghost predicate NamesOk(l: Layout, fs: seq<Field>, n: nat)
    requires n <= |fs|
  {
    forall j :: 0 <= j < |fs| ==>
      && (fs[j].name in l.nameMap <==> j < n && Stored(fs[j]))
      && (fs[j].name in l.nameMap ==> l.nameMap[fs[j].name] == |Positions(Stored, fs[..j])|)
      && (fs[j].name in l.updateNames <==> j < n && Updated(fs[j]))
  }

  /** A column leads to the last field that has it. */
  ghost predicate TagsOk(l: Layout, fs: seq<Field>, n: nat)
    requires n <= |fs|
  {
    && (forall c :: c in l.tagToName ==> exists j :: LastWith(fs[..n], c, j) && l.tagToName[c] == fs[j].name)
    && (forall j :: 0 <= j < n && Tagged(fs[j]) ==> Column(fs[j]) in l.tagToName)
  }

  ghost predicate PrimaryOk(l: Layout, fs: seq<Field>, n: nat)
    requires n <= |fs|
  {
    || (l.primary == "" && forall j :: 0 <= j < n ==> !IsPrimary(fs[j]))
    || exists j :: LastPrimary(fs[..n], j) && l.primary == Column(fs[j])
  }

  ghost predicate Describes(l: Layout, fs: seq<Field>) {
    ListsOk(l, fs, |fs|) && NamesOk(l, fs, |fs|) && TagsOk(l, fs, |fs|) && PrimaryOk(l, fs, |fs|)
  }

  lemma ScanBegins(l: Layout, fs: seq<Field>)
    requires l == Layout([], map[], map[], [], {}, [], "")
    ensures ListsOk(l, fs, 0) && NamesOk(l, fs, 0) && TagsOk(l, fs, 0) && PrimaryOk(l, fs, 0)
  {
  }

  lemma ListsStep(l: Layout, l': Layout, fs: seq<Field>, i: nat)
    requires i < |fs| && ListsOk(l, fs, i)
    requires l'.fields == l.fields + if Stored(fs[i]) then [Column(fs[i])] else []
    requires l'.updateKeys == l.updateKeys + if Updated(fs[i]) then [Column(fs[i])] else []
    requires l'.deleteKeys == l.deleteKeys + if Deleting(fs[i]) then [Column(fs[i])] else []
    ensures ListsOk(l', fs, i + 1)
  {
    ColumnsNext(Stored, fs, i);
    ColumnsNext(Updated, fs, i);
    ColumnsNext(Deleting, fs, i);
  }

  lemma NamesStep(l: Layout, l': Layout, fs: seq<Field>, i: nat)
    requires i < |fs| && DistinctNames(fs) && ListsOk(l, fs, i) && NamesOk(l, fs, i)
    requires l'.nameMap == if Stored(fs[i]) then l.nameMap[fs[i].name := |l.fields|] else l.nameMap
    requires l'.updateNames == l.updateNames + if Updated(fs[i]) then {fs[i].name} else {}
    ensures NamesOk(l', fs, i + 1)
  {
    hide Stored;
    hide Updated;
    ColumnsAt(Stored, fs[..i]);
    assert forall j :: 0 <= j < |fs| && j != i ==> fs[j].name != fs[i].name;
  }

  lemma TagsStep(l: Layout, l': Layout, fs: seq<Field>, i: nat)
    requires i < |fs| && TagsOk(l, fs, i)
    requires l'.tagToName == if Tagged(fs[i]) then l.tagToName[Column(fs[i]) := fs[i].name] else l.tagToName
    ensures TagsOk(l', fs, i + 1)
  {
    hide Column;
    hide Tagged;
    var l1, l2 := fs[..i], fs[..i + 1];
    assert l2[i] == fs[i] && forall k :: 0 <= k < i ==> l2[k] == l1[k];
    forall c | c in l'.tagToName
      ensures exists j :: LastWith(l2, c, j) && l'.tagToName[c] == fs[j].name
    {
      if Tagged(fs[i]) && Column(fs[i]) == c {
        assert LastWith(l2, c, i);
      } else {
        var j :| LastWith(l1, c, j) && l.tagToName[c] == fs[j].name;
        assert LastWith(l2, c, j);
      }
    }
  }

  lemma PrimaryStep(l: Layout, l': Layout, fs: seq<Field>, i: nat)
    requires i < |fs| && PrimaryOk(l, fs, i)
    requires l'.primary == if IsPrimary(fs[i]) then Column(fs[i]) else l.primary
    ensures PrimaryOk(l', fs, i + 1)
  {
    hide IsPrimary;
    if IsPrimary(fs[i]) {
      assert LastPrimary(fs[..i + 1], i);
    } else if j :| LastPrimary(fs[..i], j) && l.primary == Column(fs[j]) {
      assert LastPrimary(fs[..i + 1], j);
    }
  }

  /** The loop over the fields of the struct. */
  method DbFields(fs: seq<Field>) returns (l: Layout)
    requires DistinctNames(fs)
    ensures Describes(l, fs)
  {
    hide ListsOk;
    hide NamesOk;
    hide TagsOk;
    hide PrimaryOk;
    hide Contains;
    hide Cut;
    l := Layout([], map[], map[], [], {}, [], "");
    ScanBegins(l, fs);
    for i := 0 to |fs|
      invariant ListsOk(l, fs, i) && NamesOk(l, fs, i) && TagsOk(l, fs, i) && PrimaryOk(l, fs, i)
    {
      var fv := fs[i];
      ghost var before := l;
      if fv.tag != "" {
        var name := Cut(fv.tag);
        if Contains(fv.tag, "primary") {
          l := l.(primary := name);
        } else {
          l := l.(fields := l.fields + [name]);
          l := l.(nameMap := l.nameMap[fv.name := |l.fields| - 1]);
        }
        l := l.(tagToName := l.tagToName[name := fv.name]);
        if Contains(fv.tag, "update") {
          l := l.(updateKeys := l.updateKeys + [name], updateNames := l.updateNames + {fv.name});
        }
        if Contains(fv.tag, "delete") {
          l := l.(deleteKeys := l.deleteKeys + [name]);
        }
      }
      ListsStep(before, l, fs, i);
      NamesStep(before, l, fs, i);
      TagsStep(before, l, fs, i);
      PrimaryStep(before, l, fs, i);
    }
  }

  /** The position of the field of that name. */
  function FieldByName(fs: seq<Field>, name: string): Option<nat> {
    if fs == [] then None
    else if fs[|fs| - 1].name == name then Some(|fs| - 1) else FieldByName(fs[..|fs| - 1], name)
  }

  lemma {:induction false} FieldByOwnName(fs: seq<Field>, j: nat)
    requires DistinctNames(fs) && j < |fs|
    ensures FieldByName(fs, fs[j].name) == Some(j)
  {
    if j < |fs| - 1 {
      FieldByOwnName(fs[..|fs| - 1], j);
    }
  }

  /** A struct type that the cache can serve: one primary key, and no column twice. */
  ghost predicate WellTagged(fs: seq<Field>, pk: nat) {
    && DistinctNames(fs) && DistinctColumns(fs)
    && pk < |fs| && IsPrimary(fs[pk]) && Column(fs[pk]) != ""
    && forall j :: 0 <= j < |fs| && IsPrimary(fs[j]) ==> j == pk
  }

  lemma PrimaryFound(l: Layout, fs: seq<Field>, pk: nat)
    requires WellTagged(fs, pk) && Describes(l, fs)
    ensures l.primary == Column(fs[pk])
  {
    hide Column;
    hide IsPrimary;
    assert fs[..|fs|] == fs;
  }

  lemma NameFound(l: Layout, fs: seq<Field>, i: nat)
    requires Describes(l, fs) && i < |fs|
    ensures fs[i].name in l.nameMap <==> Stored(fs[i])
    ensures Stored(fs[i]) ==> l.nameMap[fs[i].name] == |Positions(Stored, fs[..i])| <= i
  {
    hide Stored;
    CountIsWithin(Stored, fs, i);
  }

  lemma UpdateFound(l: Layout, fs: seq<Field>, i: nat)
    requires Describes(l, fs) && i < |fs|
    ensures fs[i].name in l.updateNames <==> Updated(fs[i])
  {
    hide Updated;
  }

  lemma PrimaryInRange(fs: seq<Field>, pk: nat)
    requires WellTagged(fs, pk)
    ensures pk < |fs|
  {
  }

  lemma PrimaryTagged(fs: seq<Field>, pk: nat)
    requires pk < |fs| && IsPrimary(fs[pk])
    ensures Tagged(fs[pk])
  {
  }

  lemma NameCount(l: Layout, fs: seq<Field>)
    requires Describes(l, fs)
    ensures |l.fields| == |Positions(Stored, fs)|
  {
    assert fs[..|fs|] == fs;
    ColumnsAt(Stored, fs);
  }

  lemma SameColumn(fs: seq<Field>, i: nat, j: nat)
    requires DistinctColumns(fs) && i < |fs| && j < |fs| && Tagged(fs[i]) && Tagged(fs[j])
    requires Column(fs[i]) == Column(fs[j])
    ensures i == j
  {
  }

  lemma TagFound(l: Layout, fs: seq<Field>, j: nat)
    requires DistinctNames(fs) && DistinctColumns(fs) && Describes(l, fs) && j < |fs| && Tagged(fs[j])
    ensures var c := Column(fs[j]); c in l.tagToName && FieldByName(fs, l.tagToName[c]) == Some(j)
  {
    hide Column;
    hide Tagged;
    assert fs[..|fs|] == fs;
    var i :| LastWith(fs, Column(fs[j]), i) && l.tagToName[Column(fs[j])] == fs[i].name;
    SameColumn(fs, i, j);
    FieldByOwnName(fs, j);
  }

  // ---------- What a tag says ----------

  /** A string contains those that it has as a middle part. */
  lemma ContainsExactly(s: string, sub: string)
    ensures Contains(s, sub) <==> exists a, b :: s == a + sub + b
  {
    if Contains(s, sub) {
      var i :| 0 <= i <= |s| && sub <= s[i..];
      assert s == s[..i] + sub + s[i..][|sub|..];
    }
    if a, b :| s == a + sub + b {
      assert s[|a|..] == sub + b;
    }
  }

  /** The words that decide, wherever they stand in the tag of a field. */
  lemma TagsDecide(l: Layout, fs: seq<Field>, j: nat)
    requires Describes(l, fs) && j < |fs| && fs[j].tag != ""
    ensures fs[j].name in l.updateNames <==> Contains(fs[j].tag, "update")
    ensures fs[j].name in l.nameMap <==> !Contains(fs[j].tag, "primary")
    ensures Contains(fs[j].tag, "update") ==> Column(fs[j]) in l.updateKeys
    ensures Contains(fs[j].tag, "delete") ==> Column(fs[j]) in l.deleteKeys
    ensures !Contains(fs[j].tag, "primary") ==> Column(fs[j]) in l.fields
  {
    NameFound(l, fs, j);
    UpdateFound(l, fs, j);
    AllLists(l, fs);
    hide Describes;
    hide Contains;
    hide Column;
    hide Columns;
    Listed(Updated, fs, j);
    Listed(Deleting, fs, j);
    Listed(Stored, fs, j);
  }

  lemma AllLists(l: Layout, fs: seq<Field>)
    requires Describes(l, fs)
    ensures l.fields == Columns(Stored, fs) && l.updateKeys == Columns(Updated, fs) && l.deleteKeys == Columns(Deleting, fs)
  {
    assert fs[..|fs|] == fs;
  }

  lemma Listed(p: Field -> bool, fs: seq<Field>, j: nat)
    requires j < |fs|
    ensures p(fs[j]) ==> Column(fs[j]) in Columns(p, fs)
  {
    hide Column;
    if p(fs[j]) {
      PositionOf(p, fs, j);
      ColumnsAt(p, fs);
      var k := |Positions(p, fs[..j])|;
      assert Columns(p, fs)[k] == Column(fs[j]);
    }
  }

  /** A tag made of a column, a comma and an option. */
  lemma OptionDecides(l: Layout, fs: seq<Field>, j: nat, column: string, option: string)
    requires Describes(l, fs) && j < |fs| && ',' !in column && fs[j].tag == column + "," + option
    ensures Column(fs[j]) == column
    ensures option == "update" ==> fs[j].name in l.updateNames && column in l.updateKeys
    ensures option == "primary" ==> fs[j].name !in l.nameMap
    ensures option == "delete" ==> column in l.deleteKeys
  {
    var tag := fs[j].tag;
    CutColumn(column, option);
    TagsDecide(l, fs, j);
    assert tag == (column + ",") + option + "";
    ContainsExactly(tag, option);
  }

  lemma {:induction false} CutColumn(column: string, option: string)
    requires ',' !in column
    ensures Cut(column + "," + option) == column
  {
    var tag := column + "," + option;
    if column == "" {
      assert tag[0] == ',';
    } else {
      assert tag[0] == column[0] && tag[1..] == column[1..] + "," + option;
      CutColumn(column[1..], option);
    }
  }

  // ---------- Rows ----------

  type Row = map<string, Value>

  /** A row that holds the values of all the tagged fields, each in its column, and nothing else. */
  ghost predicate RowIs(row: Row, fs: seq<Field>, vals: seq<Value>)
    requires |vals| == |fs|
  {
    && (forall j :: 0 <= j < |fs| && Tagged(fs[j]) ==> Column(fs[j]) in row && row[Column(fs[j])] == vals[j])
    && (forall c :: c in row ==> exists j :: 0 <= j < |fs| && Tagged(fs[j]) && Column(fs[j]) == c)
  }

  /** A row after the statement that sets the columns `keys` to the arguments `vals`. */
  ghost function Written(row: Row, keys: seq<string>, vals: seq<Value>): Row
    requires |keys| == |vals|
  {
    if keys == [] then row else
      var n := |keys| - 1;
      Written(row, keys[..n], vals[..n])[keys[n] := vals[n]]
  }

  lemma {:induction false} WrittenMeans(row: Row, keys: seq<string>, vals: seq<Value>)
    requires |keys| == |vals| && forall a, b :: 0 <= a < b < |keys| ==> keys[a] != keys[b]
    ensures var row' := Written(row, keys, vals);
            && (forall k :: 0 <= k < |keys| ==> keys[k] in row' && row'[keys[k]] == vals[k])
            && (forall c :: c !in keys ==> (c in row' <==> c in row) && (c in row ==> row'[c] == row[c]))
  {
    if keys != [] {
      var n := |keys| - 1;
      WrittenMeans(row, keys[..n], vals[..n]);
      var row1, row' := Written(row, keys[..n], vals[..n]), Written(row, keys, vals);
      assert row' == row1[keys[n] := vals[n]];
      forall k | 0 <= k < n
        ensures keys[k] in row' && row'[keys[k]] == vals[k]
      {
        assert keys[..n][k] == keys[k] != keys[n];
      }
      assert forall c :: c !in keys ==> c !in keys[..n] && c != keys[n];
    }
  }

  /** The arguments of a statement go to the fields' own columns. */
  ghost predicate Aligned(p: Field -> bool, fs: seq<Field>, vals: seq<Value>, args: seq<Value>)
    requires |vals| == |fs|
  {
    && |args| == |Positions(p, fs)|
    && forall k :: 0 <= k < |args| ==> Positions(p, fs)[k] < |fs| && args[k] == vals[Positions(p, fs)[k]]
  }

  lemma DistinctKeys(p: Field -> bool, fs: seq<Field>)
    requires DistinctColumns(fs) && forall f :: p(f) ==> Tagged(f)
    ensures var cs := Columns(p, fs); forall a, b :: 0 <= a < b < |cs| ==> cs[a] != cs[b]
  {
    hide Column;
    PositionsMean(p, fs);
    ColumnsAt(p, fs);
    var ps := Positions(p, fs);
    assert forall a :: 0 <= a < |ps| ==> ps[a] in ps;
  }

  /** Setting the columns of the fields in `p` to aligned arguments replaces the values of these fields. */
  lemma StatementSets(p: Field -> bool, fs: seq<Field>, row: Row, vals: seq<Value>, args: seq<Value>, j: nat)
    requires DistinctColumns(fs) && (forall f :: p(f) ==> Tagged(f)) && |vals| == |fs| && Aligned(p, fs, vals, args)
    requires j < |fs| && Tagged(fs[j])
    ensures |Columns(p, fs)| == |args|
    ensures var c, row' := Column(fs[j]), Written(row, Columns(p, fs), args);
            if p(fs[j]) then c in row' && row'[c] == vals[j]
            else (c in row' <==> c in row) && (c in row ==> row'[c] == row[c])
  {
    hide Column;
    hide Tagged;
    var cs, ps := Columns(p, fs), Positions(p, fs);
    ColumnsAt(p, fs);
    DistinctKeys(p, fs);
    WrittenMeans(row, cs, args);
    if p(fs[j]) {
      PositionOf(p, fs, j);
    } else {
      PositionsMean(p, fs);
      forall k | 0 <= k < |cs|
        ensures cs[k] != Column(fs[j])
      {
        assert ps[k] in ps;
      }
    }
  }

  /** A statement adds no columns but those of fields. */
  lemma StatementColumns(p: Field -> bool, fs: seq<Field>, row: Row, args: seq<Value>, c: string)
    requires DistinctColumns(fs) && (forall f :: p(f) ==> Tagged(f)) && |args| == |Columns(p, fs)|
    requires c in Written(row, Columns(p, fs), args) && c !in row
    ensures exists j :: 0 <= j < |fs| && Tagged(fs[j]) && Column(fs[j]) == c
  {
    hide Column;
    hide Tagged;
    ColumnsAt(p, fs);
    DistinctKeys(p, fs);
    PositionsMean(p, fs);
    WrittenMeans(row, Columns(p, fs), args);
    var k :| 0 <= k < |args| && Columns(p, fs)[k] == c;
    assert Positions(p, fs)[k] in Positions(p, fs);
  }

  /** INSERT makes a row of the object's values, with the new key. */
  lemma InsertedRow(fs: seq<Field>, pk: nat, vals: seq<Value>, args: seq<Value>, id: Value)
    requires WellTagged(fs, pk) && |vals| == |fs| && Aligned(Stored, fs, vals, args) && |args| == |Columns(Stored, fs)|
    ensures RowIs(Written(map[Column(fs[pk]) := id], Columns(Stored, fs), args), fs, vals[pk := id])
  {
    hide Column;
    hide Aligned;
    hide Columns;
    var first := map[Column(fs[pk]) := id];
    var row := Written(first, Columns(Stored, fs), args);
    forall j | 0 <= j < |fs| && Tagged(fs[j])
      ensures Column(fs[j]) in row && row[Column(fs[j])] == vals[pk := id][j]
    {
      StatementSets(Stored, fs, first, vals, args, j);
    }
    forall c | c in row
      ensures exists j :: 0 <= j < |fs| && Tagged(fs[j]) && Column(fs[j]) == c
    {
      if c == Column(fs[pk]) {
        assert Column(fs[pk]) == c && Tagged(fs[pk]);
      } else {
        StatementColumns(Stored, fs, first, args, c);
      }
    }
  }

  /** The values of `old`, with those of the updated fields from `new`. */
  ghost function Mixed(fs: seq<Field>, before: seq<Value>, vals: seq<Value>): (r: seq<Value>)
    requires |before| == |vals| == |fs|
    ensures |r| == |fs|
  {
    seq(|fs|, j requires 0 <= j < |fs| => if Updated(fs[j]) then vals[j] else before[j])
  }

  /** UPDATE replaces the values of the updated fields. */
  lemma UpdatedRow(fs: seq<Field>, row: Row, before: seq<Value>, vals: seq<Value>, args: seq<Value>)
    requires DistinctColumns(fs) && |before| == |vals| == |fs| && RowIs(row, fs, before)
    requires Aligned(Updated, fs, vals, args) && |args| == |Columns(Updated, fs)|
    ensures RowIs(Written(row, Columns(Updated, fs), args), fs, Mixed(fs, before, vals))
  {
    hide Column;
    hide Aligned;
    hide Columns;
    hide Mixed;
    var row', mixed := Written(row, Columns(Updated, fs), args), Mixed(fs, before, vals);
    forall j | 0 <= j < |fs| && Tagged(fs[j])
      ensures Column(fs[j]) in row' && row'[Column(fs[j])] == mixed[j]
    {
      StatementSets(Updated, fs, row, vals, args, j);
      MixedAt(fs, before, vals, j);
    }
    forall c | c in row'
      ensures exists j :: 0 <= j < |fs| && Tagged(fs[j]) && Column(fs[j]) == c
    {
      if c !in row {
        StatementColumns(Updated, fs, row, args, c);
      }
    }
  }

  lemma MixedAt(fs: seq<Field>, before: seq<Value>, vals: seq<Value>, j: nat)
    requires |before| == |vals| == |fs| && j < |fs|
    ensures Mixed(fs, before, vals)[j] == if Updated(fs[j]) then vals[j] else before[j]
  {
  }

  lemma Lists(l: Layout, fs: seq<Field>)
    requires Describes(l, fs)
    ensures l.fields == Columns(Stored, fs) && l.updateKeys == Columns(Updated, fs)
  {
    assert fs[..|fs|] == fs;
  }

  /** The values of the fields with the updated columns are aligned with them. */
  lemma UpdateAligned(fs: seq<Field>, vals: seq<Value>, args: seq<Value>)
    requires |vals| == |fs| && |args| == |Columns(Updated, fs)|
    requires forall i, j :: 0 <= i < |args| && 0 <= j < |fs| && Tagged(fs[j]) && Column(fs[j]) == Columns(Updated, fs)[i] ==> args[i] == vals[j]
    ensures Aligned(Updated, fs, vals, args)
  {
    hide Column;
    ColumnsAt(Updated, fs);
    PositionsMean(Updated, fs);
    forall k | 0 <= k < |args|
      ensures args[k] == vals[Positions(Updated, fs)[k]]
    {
      assert Positions(Updated, fs)[k] in Positions(Updated, fs);
    }
  }

  lemma UpdateTags(fs: seq<Field>)
    ensures forall t :: t in Columns(Updated, fs) ==> exists j :: 0 <= j < |fs| && Tagged(fs[j]) && Column(fs[j]) == t
  {
    hide Column;
    ColumnsAt(Updated, fs);
    PositionsMean(Updated, fs);
    forall k | 0 <= k < |Columns(Updated, fs)|
      ensures exists j :: 0 <= j < |fs| && Tagged(fs[j]) && Column(fs[j]) == Columns(Updated, fs)[k]
    {
      assert Positions(Updated, fs)[k] in Positions(Updated, fs);
    }
  }

  // ---------- The cache ----------

  /** What the database answers to an INSERT: an error, a new row whose key the driver cannot tell, or the new key. */
  datatype Inserted = Failed | NoId(id: int) | WithId(id: int)

  class DbCache {
    const fs: seq<Field>
    const pk: nat
    const l: Layout
    var m: map<Value, Record>
    ghost var table: map<Value, Row>

    ghost predicate Ready() {
      WellTagged(fs, pk) && Describes(l, fs)
    }

    /** An object that has the key `k` and the values of the row. */
    ghost predicate RecordOk(r: Record, k: Value, row: Row)
      reads r
    {
      |r.vals| == |fs| && pk < |fs| && r.vals[pk] == k && RowIs(row, fs, r.vals)
    }

    /** A cached object has the key it is filed under, and the values of its row. */
    ghost predicate EntryOk(k: Value)
      requires k in m
      reads this, m[k]
    {
      k in table && RecordOk(m[k], k, table[k])
    }

    /** The cache agrees with the table. */
    ghost predicate Agrees()
      reads this, m.Values
    {
      m.Keys == table.Keys && forall k :: k in m ==> EntryOk(k)
    }

    constructor (fs: seq<Field>, ghost table: map<Value, Row>, pk: nat)
      requires WellTagged(fs, pk)
      ensures Ready() && this.fs == fs && this.pk == pk && m == map[] && this.table == table
    {
      var l := DbFields(fs);
      this.fs := fs;
      this.pk := pk;
      this.l := l;
      m := map[];
      this.table := table;
    }

    /** The arguments of INSERT: each value has the index that its column has in `fields`. */
    method GetFieldValues(vals: seq<Value>) returns (args: seq<Value>)
      requires Ready() && |vals| == |fs|
      ensures Aligned(Stored, fs, vals, args) && |args| == |l.fields|
    {
      hide Stored;
      hide Describes;
      hide Positions;
      hide Columns;
      assert Positions(Stored, fs[..0]) == [] by {
        CountIsWithin(Stored, fs, 0);
      }
      var res := seq(|fs|, _ => Nil);
      ghost var ps := Positions(Stored, fs);
      var n := 0;
      for i := 0 to |fs|
        invariant |res| == |fs| && n == |Positions(Stored, fs[..i])| <= i && n <= |ps| && Positions(Stored, fs[..i]) <= ps
        invariant forall k :: 0 <= k < n ==> ps[k] < |fs| && res[k] == vals[ps[k]]
      {
        PositionsPrefix(Stored, fs, i + 1);
        PositionsNext(Stored, fs, i);
        NameFound(l, fs, i);
        if fs[i].name in l.nameMap {
          PositionOf(Stored, fs, i);
          var idx := l.nameMap[fs[i].name];
          res := res[idx := vals[i]];
          n := n + 1;
        }
      }
      assert fs[..|fs|] == fs;
      NameCount(l, fs);
      CountIsWithin(Stored, fs, |fs|);
      args := res[..n];
    }

    /** The arguments of UPDATE and DELETE: for each tag the value of its field. */
    method GetFieldValuesByTagName(vals: seq<Value>, tags: seq<string>) returns (res: seq<Value>)
      requires Ready() && |vals| == |fs|
      requires forall t :: t in tags ==> exists j :: 0 <= j < |fs| && Tagged(fs[j]) && Column(fs[j]) == t
      ensures |res| == |tags|
      ensures forall i, j :: 0 <= i < |tags| && 0 <= j < |fs| && Tagged(fs[j]) && Column(fs[j]) == tags[i] ==> res[i] == vals[j]
    {
      hide Column;
      hide Tagged;
      hide Describes;
      hide FieldByName;
      res := [];
      for i := 0 to |tags|
        invariant |res| == i
        invariant forall k, j :: 0 <= k < i && 0 <= j < |fs| && Tagged(fs[j]) && Column(fs[j]) == tags[k] ==> res[k] == vals[j]
      {
        assert tags[i] in tags;
        ghost var f :| 0 <= f < |fs| && Tagged(fs[f]) && Column(fs[f]) == tags[i];
        TagFound(l, fs, f);
        var at := FieldByName(fs, l.tagToName[tags[i]]);
        forall j | 0 <= j < |fs| && Tagged(fs[j]) && Column(fs[j]) == tags[i]
          ensures j == at.value
        {
          SameColumn(fs, f, j);
        }
        res := res + [vals[at.value]];
      }
    }

    function KeyFn(v: Record): Value
      requires pk < |v.vals|
      reads v
    {
      v.vals[pk]
    }

    /** Rows as a select function should return them: all that the table has, as it has them. */
    ghost predicate Faithful(rows: seq<Record>)
      requires forall r :: r in rows ==> |r.vals| == |fs|
      reads this, rows
    {
      && pk < |fs|
      && (forall r :: r in rows ==> r.vals[pk] in table && RowIs(table[r.vals[pk]], fs, r.vals))
      && (forall k :: k in table ==> exists r :: r in rows && r.vals[pk] == k)
    }

    /**
     Fills the cache with what the select function returned; None is its error. The
     generated select function returns no row, which agrees with an empty table only.
     */
    method Load(rows: Option<seq<Record>>) returns (ok: bool)
      requires Ready() && (rows.Some? ==> forall r :: r in rows.value ==> |r.vals| == |fs|)
      modifies this`m
      ensures ok <==> rows.Some?
      ensures !ok ==> m == old(m)
      ensures ok && Faithful(rows.value) ==> Agrees()
      ensures ok && rows.value == [] ==> (Agrees() <==> table == map[])
    {
      hide RowIs;
      hide Describes;
      hide DistinctNames;
      hide DistinctColumns;
      hide IsPrimary;
      hide Column;
      hide Filed;
      if rows.None? {
        return false;
      }
      var vals := rows.value;
      var loaded: map<Value, Record> := map[];
      FiledNone(vals);
      for i := 0 to |vals|
        invariant Filed(loaded, vals[..i])
      {
        FiledNext(loaded, vals[..i], vals[i]);
        loaded := loaded[KeyFn(vals[i]) := vals[i]];
        assert vals[..i + 1] == vals[..i] + [vals[i]];
      }
      m := loaded;
      ok := true;
      assert vals[..|vals|] == vals;
      LoadedAgrees(vals);
    }

    /** Each object is filed under its key, unless another came later with the same key. */
    ghost predicate Filed(loaded: map<Value, Record>, vals: seq<Record>)
      requires pk < |fs| && forall r :: r in vals ==> |r.vals| == |fs|
      reads vals
    {
      && (forall r :: r in vals ==> KeyFn(r) in loaded)
      && (forall k :: k in loaded ==> loaded[k] in vals && KeyFn(loaded[k]) == k)
    }

    lemma FiledNone(vals: seq<Record>)
      requires pk < |fs|
      ensures Filed(map[], vals[..0])
    {
    }

    lemma FiledNext(loaded: map<Value, Record>, vals: seq<Record>, v: Record)
      requires pk < |fs| && |v.vals| == |fs| && forall r :: r in vals ==> |r.vals| == |fs|
      requires Filed(loaded, vals)
      ensures Filed(loaded[KeyFn(v) := v], vals + [v])
    {
    }

    lemma LoadedAgrees(vals: seq<Record>)
      requires pk < |fs| && (forall r :: r in vals ==> |r.vals| == |fs|) && Filed(m, vals)
      ensures Faithful(vals) ==> Agrees()
      ensures vals == [] ==> (Agrees() <==> table == map[])
    {
      hide RowIs;
      if Faithful(vals) {
        forall k | k in table
          ensures k in m
        {
          var r :| r in vals && r.vals[pk] == k;
          assert KeyFn(r) == k;
        }
      }
    }

    method SetPrimary(v: Record, id: int)
      requires Ready() && |v.vals| == |fs|
      modifies v
      ensures v.vals == old(v.vals)[pk := Num(id)]
    {
      PrimaryFound(l, fs, pk);
      TagFound(l, fs, pk);
      if l.primary == "" {
        return;
      }
      var at := FieldByName(fs, l.tagToName[l.primary]);
      v.vals := v.vals[at.value := Num(id)];
    }

    /** The INSERT statement. */
    method InsertFn(v: Record, db: Inserted) returns (ok: bool)
      requires Ready() && |v.vals| == |fs|
      modifies this`table, v
      ensures ok <==> !db.Failed?
      ensures v.vals == if db.WithId? then old(v.vals)[pk := Num(db.id)] else old(v.vals)
      ensures table.Keys == old(table).Keys + if ok then {Num(db.id)} else {}
      ensures forall k :: k in old(table) && (ok ==> k != Num(db.id)) ==> table[k] == old(table)[k]
      ensures ok ==> RowIs(table[Num(db.id)], fs, old(v.vals)[pk := Num(db.id)])
    {
      hide RowIs;
      hide Aligned;
      var vals := GetFieldValues(v.vals);
      if db.Failed? {
        return false;
      }
      Lists(l, fs);
      PrimaryFound(l, fs, pk);
      InsertedRow(fs, pk, v.vals, vals, Num(db.id));
      table := table[Num(db.id) := Written(map[l.primary := Num(db.id)], l.fields, vals)];
      if db.WithId? {
        SetPrimary(v, db.id);
      }
      return true;
    }

    /**
     Inserts `v` and keeps the very object. The cache agrees afterwards exactly when the
     object has been given the new key, or had it, and is not in the cache already.
     */
    method Insert(v: Record, db: Inserted) returns (ok: bool)
      requires Ready() && Agrees() && |v.vals| == |fs|
      requires !db.Failed? ==> Num(db.id) !in table
      modifies this`m, this`table, v
      ensures (ok <==> !db.Failed?) && |v.vals| == |fs|
      ensures !ok ==> m == old(m) && table == old(table) && v.vals == old(v.vals)
      ensures ok ==> table.Keys == old(table).Keys + {Num(db.id)} && RowIs(table[Num(db.id)], fs, old(v.vals)[pk := Num(db.id)])
      ensures ok ==> m == old(m)[KeyFn(v) := v]
      ensures ok ==> (Agrees() <==> if db.WithId? then v !in old(m).Values else old(KeyFn(v)) == Num(db.id))
    {
      hide RowIs;
      hide Describes;
      hide DistinctNames;
      hide DistinctColumns;
      hide IsPrimary;
      hide Column;
      ok := InsertFn(v, db);
      if ok {
        m := m[KeyFn(v) := v];
        assert db.NoId? && KeyFn(v) == Num(db.id) ==> old(v.vals)[pk := Num(db.id)] == v.vals;
        if (if db.WithId? then v !in old(m).Values else old(KeyFn(v)) == Num(db.id)) {
          forall k | k in m
            ensures EntryOk(k)
          {
            assert k in old(m) ==> old(EntryOk(k));
          }
        } else if db.WithId? {
          ghost var k :| k in old(m) && old(m)[k] == v;
          assert old(EntryOk(k)) && !EntryOk(k);
        } else {
          assert Num(db.id) !in m;
        }
      }
    }

    /** The UPDATE statement; `dbOk` is whether it succeeds. */
    method UpdateFn(v: Record, dbOk: bool) returns (ok: bool)
      requires Ready() && |v.vals| == |fs|
      modifies this`table
      ensures ok == dbOk && table.Keys == old(table).Keys
      ensures !ok ==> table == old(table)
      ensures forall k :: k in table && k != KeyFn(v) ==> table[k] == old(table)[k]
      ensures ok && KeyFn(v) in table ==> forall before: seq<Value> :: |before| == |fs| && RowIs(old(table)[KeyFn(v)], fs, before) ==>
                RowIs(table[KeyFn(v)], fs, Mixed(fs, before, v.vals))
    {
      hide RowIs;
      hide Describes;
      hide DistinctNames;
      hide DistinctColumns;
      hide IsPrimary;
      hide Column;
      hide Updated;
      hide Mixed;
      Lists(l, fs);
      UpdateTags(fs);
      var args := GetFieldValuesByTagName(v.vals, l.updateKeys);
      UpdateAligned(fs, v.vals, args);
      if dbOk && KeyFn(v) in table {
        ghost var row := table[KeyFn(v)];
        table := table[KeyFn(v) := Written(row, l.updateKeys, args)];
        forall before: seq<Value> | |before| == |fs| && RowIs(row, fs, before)
          ensures RowIs(table[KeyFn(v)], fs, Mixed(fs, before, v.vals))
        {
          UpdatedRow(fs, row, before, v.vals, args);
        }
      }
      return dbOk;
    }

    /** Puts a new object in the place of the cached one, with the updated fields of `v` and the others as they were. */
    method UpdateCached(v: Record)
      requires Ready() && |v.vals| == |fs| && (KeyFn(v) in m ==> EntryFor(KeyFn(v)))
      modifies this`m
      ensures KeyFn(v) !in old(m) ==> m == old(m)
      ensures KeyFn(v) in old(m) ==>
                && m.Keys == old(m).Keys && fresh(m[KeyFn(v)])
                && EntryFor(KeyFn(v)) && m[KeyFn(v)].vals == Mixed(fs, old(m)[KeyFn(v)].vals, v.vals)
                && forall k :: k in m && k != KeyFn(v) ==> m[k] == old(m)[k]
    {
      hide Describes;
      hide DistinctNames;
      hide DistinctColumns;
      hide IsPrimary;
      hide Column;
      hide Updated;
      if KeyFn(v) !in m {
        return;
      }
      var vv := m[KeyFn(v)];
      var newVal := seq(|fs|, _ => Nil);
      for i := 0 to |fs|
        invariant |newVal| == |fs| && m == old(m)
        invariant forall j :: 0 <= j < i ==> newVal[j] == if Updated(fs[j]) then v.vals[j] else vv.vals[j]
      {
        UpdateFound(l, fs, i);
        newVal := newVal[i := if fs[i].name in l.updateNames then v.vals[i] else vv.vals[i]];
      }
      assert newVal == Mixed(fs, vv.vals, v.vals) && newVal[pk] == KeyFn(v);
      var n := new Record(newVal);
      m := m[KeyFn(n) := n];
    }

    /** A cached object has the key it is filed under. */
    ghost predicate EntryFor(k: Value)
      requires k in m
      reads this, m[k]
    {
      |m[k].vals| == |fs| && pk < |fs| && m[k].vals[pk] == k
    }

    /** The object has the updated fields of `vals` and the others as in `before`. */
    ghost predicate Renewed(r: Record, before: seq<Value>, vals: seq<Value>)
      reads r
    {
      |before| == |vals| == |fs| && r.vals == Mixed(fs, before, vals)
    }

    /** Whether the statement succeeds or not, and whatever the tags of the primary key, the cache still agrees. */
    method Update(v: Record, dbOk: bool) returns (ok: bool)
      requires Ready() && Agrees() && |v.vals| == |fs|
      modifies this`m, this`table
      ensures ok == dbOk && Agrees() && m.Keys == old(m).Keys && table.Keys == old(table).Keys == m.Keys
      ensures !ok ==> m == old(m) && table == old(table)
      ensures ok ==> forall k :: k in m && k != KeyFn(v) ==> m[k] == old(m)[k] && table[k] == old(table)[k]
      ensures ok && KeyFn(v) in m ==> Renewed(m[KeyFn(v)], old(m[KeyFn(v)].vals), v.vals) && fresh(m[KeyFn(v)])
    {
      hide RowIs;
      hide Describes;
      hide DistinctNames;
      hide DistinctColumns;
      hide IsPrimary;
      hide Column;
      hide Mixed;
      hide WellTagged;
      assert pk < |fs| by {
        PrimaryInRange(fs, pk);
      }
      assert KeyFn(v) in m ==> EntryOk(KeyFn(v)) && EntryFor(KeyFn(v));
      ghost var k0, before := KeyFn(v), if KeyFn(v) in m then m[KeyFn(v)].vals else [];
      assert k0 in m ==> k0 in table && |before| == |fs| && RowIs(table[k0], fs, before);
      hide RecordOk;
      hide Renewed;
      ok := UpdateFn(v, dbOk);
      if ok {
        UpdateCached(v);
        if k0 in m {
          NewOk(k0, before, v.vals);
        }
      }
      assert m.Keys == old(m).Keys;
      forall k | k in m
        ensures EntryOk(k)
      {
        assert old(EntryOk(k));
      }
    }

    lemma NewOk(k: Value, before: seq<Value>, vals: seq<Value>)
      requires k in m && EntryFor(k) && k in table && |before| == |vals| == |fs| && m[k].vals == Mixed(fs, before, vals)
      requires RowIs(table[k], fs, Mixed(fs, before, vals))
      ensures RecordOk(m[k], k, table[k]) && Renewed(m[k], before, vals)
    {
    }

    /** The DELETE statement. */
    method DeleteFn(v: Record, dbOk: bool) returns (ok: bool)
      requires Ready() && |v.vals| == |fs|
      modifies this`table
      ensures ok == dbOk
      ensures table == if ok then old(table) - {KeyFn(v)} else old(table)
    {
      hide Describes;
      hide DistinctNames;
      hide DistinctColumns;
      hide IsPrimary;
      hide Column;
      PrimaryFound(l, fs, pk);
      PrimaryTagged(fs, pk);
      var args := GetFieldValuesByTagName(v.vals, [l.primary]);
      if dbOk {
        table := table - {args[0]};
      }
      return dbOk;
    }

    method Delete(v: Record, dbOk: bool) returns (ok: bool)
      requires Ready() && Agrees() && |v.vals| == |fs|
      modifies this`m, this`table
      ensures ok == dbOk && Agrees()
      ensures m == if ok then old(m) - {KeyFn(v)} else old(m)
      ensures table == if ok then old(table) - {KeyFn(v)} else old(table)
    {
      hide RowIs;
      hide Describes;
      hide DistinctNames;
      hide DistinctColumns;
      hide IsPrimary;
      hide Column;
      ok := DeleteFn(v, dbOk);
      if ok {
        m := m - {KeyFn(v)};
      }
      assert forall k :: k in m ==> old(EntryOk(k));
    }

    /** Answers from the cache as the table would. */
    method Get(k: Value) returns (r: Option<Record>)
      requires Agrees()
      ensures r.Some? <==> k in table
      ensures r.Some? ==> |r.value.vals| == |fs| && RowIs(table[k], fs, r.value.vals)
    {
      hide RowIs;
      if k in m {
        assert EntryOk(k);
        return Some(m[k]);
      }
      return None;
    }
  }

  lemma {:induction false} CountIsWithin(p: Field -> bool, fs: seq<Field>, i: nat)
    requires i <= |fs|
    ensures |Positions(p, fs[..i])| <= i
  {
    if i > 0 {
      PositionsNext(p, fs, i - 1);
      CountIsWithin(p, fs, i - 1);
    }
  }
}
