/** The organisation engine `_create_orga`: validation of the declared fields and
    their data, generation of the random lists, and assembly of the table. */
module Orga {
  import opened Wrappers
  import opened Seqs
  import opened Fields
  import opened Lines
  import opened Targets
  import opened Table
  import Random

  /** The raw lines of each field's data file, keyed by field name; a field with no
      entry here has no data file. */
  type Files = map<string, seq<string>>

  /** The validated input of the generation stage: the player field's name and the
      cleaned entries of every field. */
  datatype Vetted = Vetted(player: string, data: map<string, seq<string>>)

  /** The lists the generation stage produces, one entry per participant. */
  datatype Lists = Lists(ids: seq<nat>, players: seq<string>, targets: seq<string>,
                         others: seq<seq<string>>)

  // Validation.

  /** The first declared field (in declaration order) with no data file. */
  function MissingData(fields: seq<DataField>, files: Files): (r: Option<string>)
    ensures r == None <==> forall f :: f in fields ==> f.name in files
    ensures r.Some? ==> r.value !in files
  {
    if fields == [] then None
    else if fields[0].name !in files then Some(fields[0].name)
    else
      assert forall f :: f in fields ==> f == fields[0] || f in fields[1..];
      MissingData(fields[1..], files)
  }

  /** The field reported missing is the first one without a data file. */
  lemma {:induction false} MissingDataAt(fields: seq<DataField>, files: Files, i: nat)
    requires i < |fields| && fields[i].name !in files
    requires forall k :: 0 <= k < i ==> fields[k].name in files
    ensures MissingData(fields, files) == Some(fields[i].name)
  {
    if i > 0 {
      var rest := fields[1..];
      assert rest[i - 1] == fields[i];
      forall k | 0 <= k < i - 1 ensures rest[k].name in files {
        assert rest[k] == fields[k + 1];
      }
      MissingDataAt(rest, files, i - 1);
    }
  }

  /** `field_data`: the cleaned entries of each named field's file. */
  function CleanedData(names: set<string>, files: Files): (r: map<string, seq<string>>)
    requires names <= files.Keys
    ensures r.Keys == names
    ensures forall name :: name in r ==> |r[name]| <= |files[name]|
  {
    map name | name in names :: CleanLines(files[name])
  }

  /** Reading one more file adds its cleaned lines under its name. */
  lemma CleanedDataAdd(names: set<string>, name: string, files: Files)
    requires names <= files.Keys && name in files
    ensures CleanedData(names + {name}, files) == CleanedData(names, files)[name := CleanLines(files[name])]
  {
  }

  /** The count rules for a field with `count` entries in a game of n players, in
      the order the source checks them; the result is the first rule broken. */
  function FieldViolation(f: DataField, count: nat, n: nat): (r: Option<OrgaError>)
    ensures r.None? <==>
      && (f.isPlayer ==> !f.canRepeat && !f.canSkip)
      && (!f.canSkip ==> count <= n)
      && (!f.canRepeat ==> count >= n)
  {
    if f.isPlayer && (f.canRepeat || f.canSkip) then Some(PlayerFieldMarked)
    else if !f.canSkip && count > n then Some(TooManyEntries(f.name, count, n))
    else if !f.canRepeat && count < n then Some(TooFewEntries(f.name, count, n))
    else None
  }

  /** The failure, if any, of the library call that sizes the column of field f
      from `count` entries to n: `random.sample` rejects a sample larger than its
      population, `random.choices` cannot draw from an empty one. */
  function SizingFailure(f: DataField, count: nat, n: nat): (r: Option<OrgaError>)
    ensures r.Some? ==> !f.isPlayer && count < n
    ensures f.canRepeat && f.canSkip && !f.isPlayer ==> (r.Some? <==> count < n)
    ensures !(f.canRepeat && f.canSkip) ==> (r.Some? <==> !f.isPlayer && count == 0 < n)
  {
    if f.isPlayer then None
    else if f.canRepeat && f.canSkip then
      (if count < n then Some(SampleTooLarge(f.name, count, n)) else None)
    else if count < n && count == 0 then Some(ChoicesFromEmpty(f.name))
    else None
  }

  /** The two passes over the fields: the count rules before anything is drawn,
      the sizing calls while drawing. */
  datatype Pass = Counting | Sizing

  function Check(pass: Pass, f: DataField, count: nat, n: nat): Option<OrgaError> {
    match pass
    case Counting => FieldViolation(f, count, n)
    case Sizing => SizingFailure(f, count, n)
  }

  /** The first failure that `pass` reports when the fields are taken in
      declaration order. */
  function FirstFailure(pass: Pass, fields: seq<DataField>,
                        data: map<string, seq<string>>, n: nat): (r: Option<OrgaError>)
    requires forall f :: f in fields ==> f.name in data
    ensures r.None? <==> forall f :: f in fields ==> Check(pass, f, |data[f.name]|, n).None?
  {
    if fields == [] then None
    else
      var here := Check(pass, fields[0], |data[fields[0].name]|, n);
      if here.Some? then here
      else
        assert forall f :: f in fields ==> f == fields[0] || f in fields[1..];
        FirstFailure(pass, fields[1..], data, n)
  }

  /** The first failure is the one at the first field that fails. */
  lemma {:induction false} FirstFailureAt(pass: Pass, fields: seq<DataField>,
                                          data: map<string, seq<string>>, n: nat, i: nat)
    requires forall f :: f in fields ==> f.name in data
    requires i < |fields| && Check(pass, fields[i], |data[fields[i].name]|, n).Some?
    requires forall k :: 0 <= k < i ==> Check(pass, fields[k], |data[fields[k].name]|, n).None?
    ensures FirstFailure(pass, fields, data, n) == Check(pass, fields[i], |data[fields[i].name]|, n)
  {
    if i > 0 {
      var rest := fields[1..];
      assert rest[i - 1] == fields[i];
      forall k | 0 <= k < i - 1 ensures Check(pass, rest[k], |data[rest[k].name]|, n).None? {
        assert rest[k] == fields[k + 1];
      }
      FirstFailureAt(pass, rest, data, n, i - 1);
    }
  }

  /** No failure is reported when every field passes. */
  lemma FirstFailureNone(pass: Pass, fields: seq<DataField>, data: map<string, seq<string>>, n: nat)
    requires forall k :: 0 <= k < |fields| ==> fields[k].name in data
    requires forall k :: 0 <= k < |fields| ==> Check(pass, fields[k], |data[fields[k].name]|, n).None?
    ensures FirstFailure(pass, fields, data, n) == None
  {
    forall f | f in fields ensures f.name in data && Check(pass, f, |data[f.name]|, n).None? {
      var k :| 0 <= k < |fields| && fields[k] == f;
    }
  }

  /** Everything the source checks before drawing anything, in its order. */
  function Validate(fields: seq<DataField>, files: Files): (r: Result<Vetted, OrgaError>)
    ensures r.Ok? ==> VettedOk(fields, files, r.value) && NameSet(fields) == r.value.data.Keys
  {
    match CheckSchema(fields)
    case Err(e) => Err(e)
    case Ok(player) =>
      match MissingData(fields, files)
      case Some(name) => Err(DataNotFound(name))
      case None =>
        var data := CleanedData(NameSet(fields), files);
        match FirstFailure(Counting, fields, data, |data[player]|)
        case Some(e) => Err(e)
        case None => Ok(Vetted(player, data))
  }

  /** What a successful validation establishes. */
  ghost predicate VettedOk(fields: seq<DataField>, files: Files, v: Vetted) {
    && NamesUnique(fields)
    && v.player in v.data
    && (forall f :: f in fields ==> (f.isPlayer <==> f.name == v.player))
    && (forall f :: f in fields ==> f.name in files && f.name in v.data && v.data[f.name] == CleanLines(files[f.name]))
    && (forall f :: f in fields ==> FieldViolation(f, |v.data[f.name]|, |v.data[v.player]|).None?)
  }

  /** The cleaned data is determined by the cleaned lines of every field. */
  lemma CleanedDataIs(fields: seq<DataField>, files: Files, data: map<string, seq<string>>)
    requires data.Keys == NameSet(fields) <= files.Keys
    requires forall f :: f in fields ==> data[f.name] == CleanLines(files[f.name])
    ensures CleanedData(NameSet(fields), files) == data
  {
    forall name | name in NameSet(fields) ensures data[name] == CleanLines(files[name]) {
      var f :| f in fields && f.name == name;
    }
  }

  /** Validation accepts every such schema. */
  lemma ValidateComplete(fields: seq<DataField>, files: Files, v: Vetted)
    requires VettedOk(fields, files, v) && v.data.Keys == NameSet(fields)
    ensures Validate(fields, files) == Ok(v)
  {
    assert MissingData(fields, files) == None by {
      assert forall f :: f in fields ==> f.name in files;
    }
    assert CheckSchema(fields) == Ok(v.player) by {
      SinglePlayerField(fields, v.player);
    }
    assert CleanedData(NameSet(fields), files) == v.data by {
      CleanedDataIs(fields, files, v.data);
    }
    assert FirstFailure(Counting, fields, v.data, |v.data[v.player]|) == None;
  }

  /** The abort, if any, of the generation stage: `player_list[0]` fails on an empty
      player list, then the sizing of the columns in declaration order. */
  function GenerationFailure(fields: seq<DataField>, data: map<string, seq<string>>, n: nat): (r: Option<OrgaError>)
    requires forall f :: f in fields ==> f.name in data
    ensures r.None? <==> n > 0 && forall f :: f in fields ==> SizingFailure(f, |data[f.name]|, n).None?
    ensures r.Some? && n > 0 ==> exists f :: f in fields && !f.isPlayer && |data[f.name]| < n
  {
    if n == 0 then Some(NoPlayers) else FirstFailure(Sizing, fields, data, n)
  }

  /** The abort, if any, of a whole organisation run. A run that does not abort
      had valid input, at least one player and a column that can be sized for
      every field. */
  function Failure(fields: seq<DataField>, files: Files): (r: Option<OrgaError>)
    ensures r.None? ==> Validate(fields, files).Ok?
    ensures r.None? ==>
      var v := Validate(fields, files).value;
      && VettedOk(fields, files, v)
      && |v.data[v.player]| > 0
      && forall f :: f in fields ==> SizingFailure(f, |v.data[f.name]|, |v.data[v.player]|).None?
  {
    match Validate(fields, files)
    case Err(e) => Some(e)
    case Ok(v) => GenerationFailure(fields, v.data, |v.data[v.player]|)
  }

  // Generation.

  /** What sizing and shuffling guarantee about the column `col` of field f, whose
      data file has the entries `src`: exactly n values, all taken from the file;
      a field both repeatable and skippable, or one with surplus entries, gets a
      sub-multiset of its entries; one with too few keeps all of them and repeats
      some; one with exactly n gets them all once. */
  ghost predicate ColumnFits(f: DataField, src: seq<string>, col: seq<string>, n: nat) {
    && |col| == n
    && (forall v :: v in col ==> v in src)
    && (if f.canRepeat && f.canSkip then multiset(col) <= multiset(src)
        else if |src| < n then multiset(src) <= multiset(col)
        else if |src| > n then multiset(col) <= multiset(src)
        else multiset(col) == multiset(src))
  }

  /** The contract of the generated lists. */
  ghost predicate ListsFit(l: Lists, fields: seq<DataField>, data: map<string, seq<string>>,
                           player: string, n: nat)
    requires player in data && forall f :: f in fields ==> f.name in data
  {
    && |l.ids| == |l.players| == n > 0
    && multiset(l.ids) == multiset(Range(n))
    && multiset(l.players) == multiset(data[player])
    && l.targets == RotateLeft(l.players)
    && (forall c :: c in l.others ==> |c| == n)
    && ColumnsFit(fields, data, l.others, n)
  }

  /** paranoia.py lines 79-87: read every field's data file, in declaration order. */
  method LoadFieldData(fields: seq<DataField>, files: Files) returns (r: Result<map<string, seq<string>>, OrgaError>)
    ensures match MissingData(fields, files)
      case Some(name) => r == Err(DataNotFound(name))
      case None => NameSet(fields) <= files.Keys && r == Ok(CleanedData(NameSet(fields), files))
  {
    var fieldData: map<string, seq<string>> := map[];
    var i := 0;
    assert fields[..i] == [];
    while i < |fields|
      invariant 0 <= i <= |fields|
      invariant forall k :: 0 <= k < i ==> fields[k].name in files
      invariant NameSet(fields[..i]) <= files.Keys
      invariant fieldData == CleanedData(NameSet(fields[..i]), files)
    {
      var field := fields[i];
      if field.name !in files {
        assert MissingData(fields, files) == Some(field.name) by {
          MissingDataAt(fields, files, i);
        }
        return Err(DataNotFound(field.name));
      }
      assert NameSet(fields[..i + 1]) == NameSet(fields[..i]) + {field.name} by {
        NameSetSnoc(fields, i);
      }
      assert CleanedData(NameSet(fields[..i]) + {field.name}, files)
          == fieldData[field.name := CleanLines(files[field.name])] by {
        CleanedDataAdd(NameSet(fields[..i]), field.name, files);
      }
      fieldData := fieldData[field.name := CleanLines(files[field.name])];
      i := i + 1;
    }
    assert fields[..i] == fields;
    assert MissingData(fields, files) == None by {
      forall f | f in fields ensures f.name in files {
        var k :| 0 <= k < |fields| && fields[k] == f;
      }
    }
    return Ok(fieldData);
  }

  /** paranoia.py lines 89-103: the count rules, field by field; the first rule broken aborts. */
  method CheckCounts(fields: seq<DataField>, data: map<string, seq<string>>, n: nat) returns (r: Option<OrgaError>)
    requires forall f :: f in fields ==> f.name in data
    ensures r == FirstFailure(Counting, fields, data, n)
  {
    var i := 0;
    while i < |fields|
      invariant 0 <= i <= |fields|
      invariant forall k :: 0 <= k < i ==> Check(Counting, fields[k], |data[fields[k].name]|, n).None?
    {
      var field := fields[i];
      var count := |data[field.name]|;
      if field.isPlayer && (field.canRepeat || field.canSkip) {
        FirstFailureAt(Counting, fields, data, n, i);
        return Some(PlayerFieldMarked);
      }
      if !field.canSkip && count > n {
        FirstFailureAt(Counting, fields, data, n, i);
        return Some(TooManyEntries(field.name, count, n));
      }
      if !field.canRepeat && count < n {
        FirstFailureAt(Counting, fields, data, n, i);
        return Some(TooFewEntries(field.name, count, n));
      }
      i := i + 1;
    }
    return None;
  }

  /** paranoia.py lines 105-127: draw the ids, the player order and every other field's column. */
  method GenerateLists(fields: seq<DataField>, data: map<string, seq<string>>, player: string, n: nat)
    returns (r: Result<Lists, OrgaError>)
    requires player in data && n == |data[player]|
    requires forall f :: f in fields ==> f.name in data
    ensures r.Err? ==> GenerationFailure(fields, data, n) == Some(r.error)
    ensures r.Ok? ==> GenerationFailure(fields, data, n) == None && ListsFit(r.value, fields, data, player, n)
  {
    var ids := Random.Shuffle(Range(n));
    var players := Random.Shuffle(data[player]);
    if |players| == 0 {
      return Err(NoPlayers);
    }
    assert |ids| == |multiset(ids)| == |multiset(Range(n))| == n;
    assert |players| == |multiset(players)| == |multiset(data[player])| == n;
    var targets := RotateLeft(players);
    var others := SizeColumns(fields, data, n);
    if others.Err? {
      return Err(others.error);
    }
    ColumnsFitIndexed(fields, data, others.value, n);
    return Ok(Lists(ids, players, targets, others.value));
  }

  /** The columns of the non-player fields, in declaration order: one column per
      such field, each fitting its field. */
  ghost predicate ColumnsFit(fields: seq<DataField>, data: map<string, seq<string>>, others: seq<seq<string>>, n: nat)
    decreases |fields|
  {
    if fields == [] then others == []
    else
      var init, last := fields[..|fields| - 1], fields[|fields| - 1];
      if last.isPlayer then ColumnsFit(init, data, others, n)
      else
        && others != []
        && last.name in data
        && ColumnFits(last, data[last.name], others[|others| - 1], n)
        && ColumnsFit(init, data, others[..|others| - 1], n)
  }

  /** Column j belongs to the j-th non-player field. */
  lemma {:induction false} ColumnsFitIndexed(fields: seq<DataField>, data: map<string, seq<string>>,
                                             others: seq<seq<string>>, n: nat)
    requires ColumnsFit(fields, data, others, n)
    ensures |others| == |NonPlayerFields(fields)|
    ensures forall c :: c in others ==> |c| == n
    ensures forall j :: 0 <= j < |others| ==>
      (NonPlayerFields(fields)[j].name in data &&
       ColumnFits(NonPlayerFields(fields)[j], data[NonPlayerFields(fields)[j].name], others[j], n))
    decreases |fields|
  {
    if fields != [] {
      var init, last := fields[..|fields| - 1], fields[|fields| - 1];
      if last.isPlayer {
        ColumnsFitIndexed(init, data, others, n);
      } else {
        var front, col := others[..|others| - 1], others[|others| - 1];
        ColumnsFitIndexed(init, data, front, n);
        ColumnsSnoc(NonPlayerFields(init), last, front, col, data, n);
        assert NonPlayerFields(fields) == NonPlayerFields(init) + [last];
        SplitLast(others);
      }
    }
  }

  lemma ColumnsSnoc(aux: seq<DataField>, last: DataField, front: seq<seq<string>>, col: seq<string>,
                    data: map<string, seq<string>>, n: nat)
    requires |front| == |aux|
    requires forall c :: c in front ==> |c| == n
    requires forall j :: 0 <= j < |front| ==> aux[j].name in data && ColumnFits(aux[j], data[aux[j].name], front[j], n)
    requires last.name in data && ColumnFits(last, data[last.name], col, n)
    ensures forall c :: c in front + [col] ==> |c| == n
    ensures forall j :: 0 <= j < |front| + 1 ==>
      ((aux + [last])[j].name in data &&
       ColumnFits((aux + [last])[j], data[(aux + [last])[j].name], (front + [col])[j], n))
  {
    forall j | 0 <= j < |front| + 1
      ensures (aux + [last])[j].name in data &&
              ColumnFits((aux + [last])[j], data[(aux + [last])[j].name], (front + [col])[j], n)
    {
      if j < |front| {
        assert (aux + [last])[j] == aux[j] && (front + [col])[j] == front[j];
      } else {
        assert (aux + [last])[j] == last && (front + [col])[j] == col;
      }
    }
  }

  /** Taking one more field extends the columns by that field's column, if it gets one. */
  lemma ColumnsFitStep(fields: seq<DataField>, data: map<string, seq<string>>, n: nat, i: nat,
                       others: seq<seq<string>>, column: seq<string>)
    requires i < |fields| && fields[i].name in data
    requires ColumnsFit(fields[..i], data, others, n)
    requires !fields[i].isPlayer ==> ColumnFits(fields[i], data[fields[i].name], column, n)
    ensures ColumnsFit(fields[..i + 1], data, if fields[i].isPlayer then others else others + [column], n)
  {
    TakeSnoc(fields, i);
    assert fields[..i + 1][..i] == fields[..i];
    assert (others + [column])[..|others|] == others;
  }

  /** paranoia.py lines 114-127: size and shuffle the column of every non-player field; the
      first field whose sizing call fails aborts the run. */
  method SizeColumns(fields: seq<DataField>, data: map<string, seq<string>>, n: nat)
    returns (r: Result<seq<seq<string>>, OrgaError>)
    requires forall k :: 0 <= k < |fields| ==> fields[k].name in data
    ensures r.Err? ==> FirstFailure(Sizing, fields, data, n) == Some(r.error)
    ensures r.Ok? ==> FirstFailure(Sizing, fields, data, n) == None && ColumnsFit(fields, data, r.value, n)
  {
    var others: seq<seq<string>> := [];
    var i := 0;
    assert fields[..i] == [];
    while i < |fields|
      invariant 0 <= i <= |fields|
      invariant forall k :: 0 <= k < i ==> Check(Sizing, fields[k], |data[fields[k].name]|, n).None?
      invariant ColumnsFit(fields[..i], data, others, n)
    {
      var field := fields[i];
      if !field.isPlayer {
        var column := SizedColumn(field, data[field.name], n);
        if column.Err? {
          FirstFailureAt(Sizing, fields, data, n, i);
          return Err(column.error);
        }
        ColumnsFitStep(fields, data, n, i, others, column.value);
        others := others + [column.value];
      } else {
        ColumnsFitStep(fields, data, n, i, others, []);
      }
      assert ColumnsFit(fields[..i + 1], data, others, n);
      i := i + 1;
    }
    assert fields[..i] == fields;
    FirstFailureNone(Sizing, fields, data, n);
    return Ok(others);
  }

  /** paranoia.py lines 119-126: the column of one non-player field, sized to n and shuffled. */
  method SizedColumn(field: DataField, src: seq<string>, n: nat) returns (r: Result<seq<string>, OrgaError>)
    requires !field.isPlayer
    ensures r.Err? ==> SizingFailure(field, |src|, n) == Some(r.error)
    ensures r.Ok? ==> SizingFailure(field, |src|, n) == None && ColumnFits(field, src, r.value, n)
  {
    var data := src;
    if field.canRepeat && field.canSkip {
      var s := Random.Sample(data, n);
      if s.None? {
        return Err(SampleTooLarge(field.name, |src|, n));
      }
      data := s.value;
    } else if |data| < n {
      var c := Random.Choices(data, n - |data|);
      if c.None? {
        return Err(ChoicesFromEmpty(field.name));
      }
      data := data + c.value;
    } else if |data| > n {
      var s := Random.Sample(data, n);
      data := s.value;
    }
    forall v | v in data ensures v in src {
      assert v in multiset(data);
    }
    data := Random.Shuffle(data);
    forall v | v in data ensures v in src {
      assert v in multiset(data);
    }
    return Ok(data);
  }

  // Assembly.

  /** What `_create_orga` promises about the table it returns for validated input:
      one row per participant, row k carrying id k; the players and the targets
      each the player file's entries, rearranged; every row a value for every
      non-player field, each column sized as ColumnFits says; rows that can be
      ordered so that each targets the next one's player, whatever the names;
      and, when the player names are distinct, targets that form a single cycle through everybody with
      nobody their own target as soon as there are two players. A lone player
      targets themself. */
  ghost predicate IsOrganization(t: seq<Row>, fields: seq<DataField>, v: Vetted) {
    && v.player in v.data
    && (forall f :: f in fields ==> f.name in v.data)
    && var players := v.data[v.player];
    && var n := |players|;
    && var aux := NonPlayerFields(fields);
    && |t| == n
    && (forall k :: 0 <= k < n ==> t[k].id == k)
    && (forall r :: r in t ==> |r.values| == |aux|)
    && multiset(Players(t)) == multiset(players)
    && multiset(TargetNames(t)) == multiset(players)
    && (forall j :: 0 <= j < |aux| ==> ColumnFits(aux[j], v.data[aux[j].name], Column(t, j), n))
    && Rotatable(t)
    && (n == 1 ==> t[0].target == t[0].player)
    && (Distinct(players) ==> SingleTargetCycle(t) && (n >= 2 ==> NoSelfTarget(t)))
  }

  /** ColumnFits depends only on the multiset of the column. */
  lemma ColumnFitsPermutation(f: DataField, src: seq<string>, a: seq<string>, b: seq<string>, n: nat)
    requires multiset(a) == multiset(b) && ColumnFits(f, src, a, n)
    ensures ColumnFits(f, src, b, n)
  {
    assert |b| == |multiset(b)| == |multiset(a)| == |a|;
    forall v | v in b ensures v in src {
      assert v in multiset(a);
    }
  }

  /** paranoia.py lines 129-134 keep the guarantees of the lists: transposing aligns them
      row by row, sorting numbers the rows by id and preserves every column's
      multiset, and the rotation becomes a single cycle of targets. */
  lemma AssembleCorrect(l: Lists, fields: seq<DataField>, v: Vetted)
    requires v.player in v.data && forall f :: f in fields ==> f.name in v.data
    requires ListsFit(l, fields, v.data, v.player, |v.data[v.player]|)
    ensures IsOrganization(Assemble(l.ids, l.players, l.targets, l.others,
                                    |v.data[v.player]|), fields, v)
  {
    var n := |v.data[v.player]|;
    var t := Assemble(l.ids, l.players, l.targets, l.others, n);
    ColumnsFitIndexed(fields, v.data, l.others, n);
    AssembleRows(l.ids, l.players, l.targets, l.others, n);
    AssembleTargets(l.ids, l.players, l.others, n);
    RotatePermutation(l.players);
    var aux := NonPlayerFields(fields);
    forall j | 0 <= j < |aux| ensures ColumnFits(aux[j], v.data[aux[j].name], Column(t, j), n) {
      ColumnFitsPermutation(aux[j], v.data[aux[j].name], l.others[j], Column(t, j), n);
    }
    if Distinct(v.data[v.player]) {
      DistinctPermutation(v.data[v.player], l.players);
    }
  }

  /** paranoia.py lines 60-103: the validation stage, run step by step; it
      computes exactly Validate. */
  method CheckInput(fields: seq<DataField>, files: Files) returns (r: Result<Vetted, OrgaError>)
    ensures r == Validate(fields, files)
  {
    var schema := CheckSchema(fields);
    if schema.Err? {
      return Err(schema.error);
    }
    var player := schema.value;
    var loaded := LoadFieldData(fields, files);
    if loaded.Err? {
      return Err(loaded.error);
    }
    var data := loaded.value;
    assert forall f :: f in fields ==> f.name in data;
    assert player in data;
    var n := |data[player]|;
    var violation := CheckCounts(fields, data, n);
    if violation.Some? {
      return Err(violation.value);
    }
    return Ok(Vetted(player, data));
  }

  /** `_create_orga`: validate the fields and their data, draw the lists, assemble
      the table. It aborts with the first problem the source meets, and otherwise
      returns a table with every guarantee of IsOrganization. The two assertions
      at the end of the source hold on every run. */
  method CreateOrga(fields: seq<DataField>, files: Files) returns (r: Result<seq<Row>, OrgaError>)
    ensures r.Err? <==> Failure(fields, files).Some?
    ensures r.Err? ==> Failure(fields, files) == Some(r.error)
    ensures r.Ok? ==> Validate(fields, files).Ok? && IsOrganization(r.value, fields, Validate(fields, files).value)
    ensures r.Ok? ==> forall row :: row in r.value ==> Width(row) == 2 + |fields|
  {
    var vetted := CheckInput(fields, files);
    if vetted.Err? {
      return Err(vetted.error);
    }
    var v := vetted.value;
    var data, player := v.data, v.player;
    var n := |data[player]|;
    var lists := GenerateLists(fields, data, player, n);
    if lists.Err? {
      return Err(lists.error);
    }
    var l := lists.value;
    AssembleCorrect(l, fields, v);
    var table := Assemble(l.ids, l.players, l.targets, l.others, n);
    FieldPartition(fields);
    return Ok(table);
  }
}
