/** The field declarations of a game and the structural checks made on them before
    any data is read: unique names and exactly one player field. */
module Fields {
  import opened Wrappers
  import opened Seqs

  /** One entry of the configuration's `fields` list. Flags left out of the
      configuration default to false, as in the dataclass. */
  datatype DataField = DataField(
    name: string,
    isPlayer: bool := false,
    canRepeat: bool := false,
    canSkip: bool := false)

  /** Every way an organisation run aborts. */
  datatype OrgaError =
    | DuplicateFieldNames(names: set<string>)
    | PlayerFieldCount(count: nat)
    | DataNotFound(field: string)
    | PlayerFieldMarked
    | TooManyEntries(field: string, got: nat, need: nat)
    | TooFewEntries(field: string, got: nat, need: nat)
    | NoPlayers
    | SampleTooLarge(field: string, got: nat, need: nat)
    | ChoicesFromEmpty(field: string)

  /** The set of declared names. */
  function NameSet(fields: seq<DataField>): set<string> {
    set f | f in fields :: f.name
  }

  /** Declaring one more field adds its name. */
  lemma NameSetSnoc(fields: seq<DataField>, i: nat)
    requires i < |fields|
    ensures NameSet(fields[..i + 1]) == NameSet(fields[..i]) + {fields[i].name}
  {
    assert fields[..i + 1] == fields[..i] + [fields[i]];
  }

  ghost predicate NamesUnique(fields: seq<DataField>) {
    forall i, j :: 0 <= i < j < |fields| ==> fields[i].name != fields[j].name
  }

  /** The names declared by two different entries. */
  function Duplicates(fields: seq<DataField>): (r: set<string>)
    ensures r <= NameSet(fields)
  {
    set i, j | 0 <= i < |fields| && 0 <= j < |fields| && i != j && fields[i].name == fields[j].name
      :: fields[i].name
  }

  /** The names of the player fields, in declaration order. */
  function PlayerNames(fields: seq<DataField>): (r: seq<string>)
    ensures |r| <= |fields|
    ensures forall x :: x in r <==> exists f :: f in fields && f.isPlayer && f.name == x
  {
    if fields == [] then []
    else (if fields[0].isPlayer then [fields[0].name] else []) + PlayerNames(fields[1..])
  }

  /** The fields that are not the player field, in declaration order: the fields
      that get a value column in the organisation table. */
  function NonPlayerFields(fields: seq<DataField>): (r: seq<DataField>)
    ensures |r| <= |fields|
    ensures forall f :: f in r <==> f in fields && !f.isPlayer
  {
    if fields == [] then []
    else
      var last := fields[|fields| - 1];
      NonPlayerFields(fields[..|fields| - 1]) + (if last.isPlayer then [] else [last])
  }

  /** Declaring one more field adds it to the non-player fields unless it is a player field. */
  lemma NonPlayerFieldsSnoc(fields: seq<DataField>, f: DataField)
    ensures NonPlayerFields(fields + [f]) == NonPlayerFields(fields) + (if f.isPlayer then [] else [f])
  {
    assert (fields + [f])[..|fields|] == fields;
  }

  /** Counting the names collapses exactly the repeated ones: the cardinality test
      of the source is the same as pairwise distinct names. */
  lemma {:induction false} NameSetSize(fields: seq<DataField>)
    ensures |NameSet(fields)| <= |fields|
    ensures |NameSet(fields)| == |fields| <==> NamesUnique(fields)
  {
    if fields != [] {
      var rest := fields[1..];
      NameSetSize(rest);
      NameSetCons(fields);
      UniqueCons(fields);
    }
  }

  lemma NameSetCons(fields: seq<DataField>)
    requires fields != []
    ensures NameSet(fields) == {fields[0].name} + NameSet(fields[1..])
  {
    assert fields == [fields[0]] + fields[1..];
  }

  /** A list's names are unique exactly when its head's name is new and the
      rest's names are unique. */
  lemma UniqueCons(fields: seq<DataField>)
    requires fields != []
    ensures NamesUnique(fields) <==> fields[0].name !in NameSet(fields[1..]) && NamesUnique(fields[1..])
  {
    var rest := fields[1..];
    if fields[0].name in NameSet(rest) {
      var g :| g in rest && g.name == fields[0].name;
      var j :| 0 <= j < |rest| && rest[j] == g;
      assert fields[j + 1].name == fields[0].name;
    } else if NamesUnique(rest) {
      forall i, j | 0 <= i < j < |fields| ensures fields[i].name != fields[j].name {
        if i == 0 {
          assert fields[j] in rest;
        } else {
          assert fields[i] == rest[i - 1] && fields[j] == rest[j - 1];
        }
      }
    } else {
      var i, j :| 0 <= i < j < |rest| && rest[i].name == rest[j].name;
      assert fields[i + 1].name == fields[j + 1].name;
    }
  }

  lemma DuplicatesEmpty(fields: seq<DataField>)
    ensures Duplicates(fields) == {} <==> NamesUnique(fields)
  {
    if !NamesUnique(fields) {
      var i, j :| 0 <= i < j < |fields| && fields[i].name == fields[j].name;
      assert fields[i].name in Duplicates(fields);
    }
  }

  /** With exactly one player field, every other field is a non-player field. */
  lemma {:induction false} FieldPartition(fields: seq<DataField>)
    ensures |PlayerNames(fields)| + |NonPlayerFields(fields)| == |fields|
  {
    if fields != [] {
      var init, last := fields[..|fields| - 1], fields[|fields| - 1];
      FieldPartition(init);
      assert |PlayerNames(fields)| == |PlayerNames(init)| + |PlayerNames([last])| by {
        SplitLast(fields);
        PlayerNamesAppend(init, [last]);
      }
      assert PlayerNames([last]) == (if last.isPlayer then [last.name] else []) + PlayerNames([]);
    }
  }

  lemma {:induction false} PlayerNamesAppend(a: seq<DataField>, b: seq<DataField>)
    ensures PlayerNames(a + b) == PlayerNames(a) + PlayerNames(b)
  {
    if a != [] {
      assert (a + b)[1..] == a[1..] + b;
      PlayerNamesAppend(a[1..], b);
    } else {
      assert a + b == b;
    }
  }

  lemma {:induction false} NoPlayerField(fields: seq<DataField>)
    requires forall f :: f in fields ==> !f.isPlayer
    ensures PlayerNames(fields) == []
  {
    if fields != [] {
      assert fields[0] in fields;
      NoPlayerField(fields[1..]);
    }
  }

  /** When the player fields are exactly the fields named `player` and names are
      unique, there is exactly one player field. */
  lemma {:induction false} SinglePlayerField(fields: seq<DataField>, player: string)
    requires forall f :: f in fields ==> (f.isPlayer <==> f.name == player)
    requires player in NameSet(fields) && NamesUnique(fields)
    ensures PlayerNames(fields) == [player]
  {
    var rest := fields[1..];
    assert NamesUnique(rest) by {
      forall i, j | 0 <= i < j < |rest| ensures rest[i].name != rest[j].name {
        assert rest[i] == fields[i + 1] && rest[j] == fields[j + 1];
      }
    }
    if fields[0].isPlayer {
      forall f | f in rest ensures !f.isPlayer {
        var j :| 0 <= j < |rest| && rest[j] == f;
        assert fields[j + 1] == f;
      }
      NoPlayerField(rest);
    } else {
      var f :| f in fields && f.name == player;
      assert f in rest;
      SinglePlayerField(rest, player);
    }
  }

  /** The checks before any data file is opened: names must be unique, then
      exactly one field must be the player field, whose name is returned. */
  function CheckSchema(fields: seq<DataField>): (r: Result<string, OrgaError>)
    ensures r.Ok? <==> NamesUnique(fields) && |PlayerNames(fields)| == 1
    ensures !NamesUnique(fields) ==>
      Duplicates(fields) != {} && r == Err(DuplicateFieldNames(Duplicates(fields)))
    ensures NamesUnique(fields) && |PlayerNames(fields)| != 1 ==>
      r == Err(PlayerFieldCount(|PlayerNames(fields)|))
    ensures r.Ok? ==> r.value in NameSet(fields)
    ensures r.Ok? ==> forall f :: f in fields ==> (f.isPlayer <==> f.name == r.value)
  {
    assert |NameSet(fields)| == |fields| <==> NamesUnique(fields) by {
      NameSetSize(fields);
    }
    assert Duplicates(fields) == {} <==> NamesUnique(fields) by {
      DuplicatesEmpty(fields);
    }
    if |NameSet(fields)| != |fields| then Err(DuplicateFieldNames(Duplicates(fields)))
    else if |PlayerNames(fields)| != 1 then Err(PlayerFieldCount(|PlayerNames(fields)|))
    else
      var player := PlayerNames(fields)[0];
      assert player in PlayerNames(fields);
      assert forall f :: f in fields ==> (f.isPlayer <==> f.name == player) by {
        var p :| p in fields && p.isPlayer && p.name == player;
        forall f | f in fields ensures f.isPlayer <==> f.name == player {
          if f.isPlayer {
            assert f.name in PlayerNames(fields);
          }
          if f.name == player {
            var i :| 0 <= i < |fields| && fields[i] == f;
            var j :| 0 <= j < |fields| && fields[j] == p;
            assert i == j;
          }
        }
      }
      Ok(player)
  }
}
