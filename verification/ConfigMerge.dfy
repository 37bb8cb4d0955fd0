/**
 The deep merge of two configurations: its algebra, its effect path by path, and the update of a
 configuration file that uses it.
 */
module ConfigMerge {
  import opened Options

  type Config = map<string, Value>

  /** A parsed YAML or JSON value; everything but a map or a list is a scalar. */
  datatype Value = Scalar(text: string) | List(items: seq<Value>) | Node(fields: Config)

  /** Maps merge key by key; anything else in the updates replaces what was there. */
  function Merge(dst: Config, src: Config): Config
    decreases Node(src)
  {
    map k | k in dst.Keys + src.Keys ::
      if k !in src then dst[k]
      else if k in dst && dst[k].Node? && src[k].Node? then Node(Merge(dst[k].fields, src[k].fields))
      else src[k]
  }

  // ---- Paths ----

  type Path = p: seq<string> | p != [] witness [""]

  function Get(c: Config, path: Path): Option<Value>
    decreases |path|
  {
    if path[0] !in c then None
    else if |path| == 1 then Some(c[path[0]])
    else if c[path[0]].Node? then Get(c[path[0]].fields, path[1..])
    else None
  }

  /** The leaf at a path: a value that is not a map. */
  function Leaf(c: Config, path: Path): Option<Value> {
    var v := Get(c, path);
    if v.Some? && !v.value.Node? then v else None
  }

  predicate MapAt(c: Config, path: Path) {
    var v := Get(c, path);
    v.Some? && v.value.Node?
  }

  /** Something at the path, or a value above it that is not a map. */
  predicate Blocks(c: Config, path: Path)
    decreases |path|
  {
    path[0] in c && (|path| == 1 || !c[path[0]].Node? || Blocks(c[path[0]].fields, path[1..]))
  }

  lemma {:induction false} LeafBlocks(c: Config, path: Path)
    ensures Leaf(c, path).Some? ==> Blocks(c, path)
    decreases |path|
  {
    if |path| > 1 && path[0] in c && c[path[0]].Node? {
      LeafBlocks(c[path[0]].fields, path[1..]);
    }
  }

  lemma {:induction false} NotBlockedHasNothing(c: Config, path: Path)
    ensures !Blocks(c, path) ==> Get(c, path) == None
    decreases |path|
  {
    if |path| > 1 && path[0] in c && c[path[0]].Node? {
      NotBlockedHasNothing(c[path[0]].fields, path[1..]);
    }
  }

  /** Every leaf of the result: from the updates if they have one there, else from a part they do not block. */
  lemma {:induction false} MergedLeaf(dst: Config, src: Config, path: Path)
    ensures Leaf(Merge(dst, src), path) ==
            if Leaf(src, path).Some? then Leaf(src, path)
            else if Blocks(src, path) then None
            else Leaf(dst, path)
    decreases |path|
  {
    var k := path[0];
    if |path| > 1 && k in src && src[k].Node? {
      if k in dst && dst[k].Node? {
        MergedLeaf(dst[k].fields, src[k].fields, path[1..]);
      } else {
        LeafBlocks(src[k].fields, path[1..]);
        NotBlockedHasNothing(src[k].fields, path[1..]);
      }
    }
  }

  // ---- Algebra ----

  lemma {:induction false} MergeSame(c: Config)
    ensures Merge(c, c) == c
    decreases Node(c)
  {
    forall k | k in c ensures Merge(c, c)[k] == c[k] {
      if c[k].Node? {
        MergeSame(c[k].fields);
      }
    }
    assert Merge(c, c).Keys == c.Keys;
  }

  lemma {:induction false} MergeIdempotent(dst: Config, src: Config)
    ensures Merge(Merge(dst, src), src) == Merge(dst, src)
    decreases Node(src)
  {
    var m := Merge(dst, src);
    forall k | k in m
      ensures Merge(m, src)[k] == m[k]
    {
      if k in src && src[k].Node? {
        if k in dst && dst[k].Node? {
          MergeIdempotent(dst[k].fields, src[k].fields);
        } else {
          MergeSame(src[k].fields);
        }
      }
    }
    assert Merge(m, src).Keys == m.Keys;
  }

  lemma MergeUnits(c: Config)
    ensures Merge(c, map[]) == c && Merge(map[], c) == c
  {
    assert Merge(c, map[]).Keys == c.Keys;
    assert Merge(map[], c).Keys == c.Keys;
  }

  /** `c` says something about everything in `a`. */
  predicate Covers(c: Config, a: Config)
    decreases Node(a)
  {
    forall k :: k in a ==> k in c && (a[k].Node? && c[k].Node? ==> Covers(c[k].fields, a[k].fields))
  }

  lemma {:induction false} AbsorbedIff(a: Config, c: Config)
    ensures Merge(a, c) == c <==> Covers(c, a)
    decreases Node(a)
  {
    var m := Merge(a, c);
    forall k | k in a && k in c && a[k].Node? && c[k].Node?
      ensures m[k] == c[k] <==> Covers(c[k].fields, a[k].fields)
    {
      AbsorbedIff(a[k].fields, c[k].fields);
    }
    if m == c {
      forall k | k in a
        ensures k in c && (a[k].Node? && c[k].Node? ==> Covers(c[k].fields, a[k].fields))
      {
        assert k in m;
      }
    } else if Covers(c, a) {
      assert m.Keys == c.Keys;
      assert forall k :: k in c ==> m[k] == c[k];
    }
  }

  /** Wherever a map, a non-map and a map meet, the last one covers the first. */
  predicate Compatible(a: Config, b: Config, c: Config)
    decreases Node(a), 1
  {
    forall k :: k in a ==> CompatibleAt(a, b, c, k)
  }

  predicate CompatibleAt(a: Config, b: Config, c: Config, k: string)
    requires k in a
    decreases Node(a), 0
  {
    k in b && k in c && a[k].Node? && c[k].Node? ==>
      if b[k].Node? then Compatible(a[k].fields, b[k].fields, c[k].fields)
      else Covers(c[k].fields, a[k].fields)
  }

  /** One key of the two ways to merge three configurations. */
  lemma {:induction false} AssociativeAt(a: Config, b: Config, c: Config, k: string)
    requires k in a.Keys + b.Keys + c.Keys
    ensures Merge(Merge(a, b), c)[k] == Merge(a, Merge(b, c))[k] <==> (k in a ==> CompatibleAt(a, b, c, k))
    decreases Node(a), 0
  {
    if k in a && k in b && k in c && a[k].Node? && c[k].Node? {
      if b[k].Node? {
        MergeAssociativeIff(a[k].fields, b[k].fields, c[k].fields);
      } else {
        AbsorbedIff(a[k].fields, c[k].fields);
      }
    }
  }

  lemma MergedKeys(a: Config, b: Config, c: Config)
    ensures Merge(Merge(a, b), c).Keys == a.Keys + b.Keys + c.Keys == Merge(a, Merge(b, c)).Keys
  {
  }

  lemma SameIffSameAt(left: Config, right: Config)
    requires left.Keys == right.Keys
    ensures left == right <==> forall k :: k in left ==> left[k] == right[k]
  {
  }

  /** Merging is associative on exactly the compatible triples. */
  lemma {:induction false} MergeAssociativeIff(a: Config, b: Config, c: Config)
    ensures Merge(Merge(a, b), c) == Merge(a, Merge(b, c)) <==> Compatible(a, b, c)
    decreases Node(a), 1
  {
    var left, right := Merge(Merge(a, b), c), Merge(a, Merge(b, c));
    MergedKeys(a, b, c);
    forall k | k in left
      ensures left[k] == right[k] <==> (k in a ==> CompatibleAt(a, b, c, k))
    {
      AssociativeAt(a, b, c, k);
    }
    SameIffSameAt(left, right);
    if !Compatible(a, b, c) {
      var k :| k in a && !CompatibleAt(a, b, c, k);
      assert k in left && left[k] != right[k];
    }
  }

  /** No path has a map in `a`, a non-map in `b` and a map in `c`. */
  ghost predicate NoClash(a: Config, b: Config, c: Config) {
    forall path: Path :: !(MapAt(a, path) && Leaf(b, path).Some? && MapAt(c, path))
  }

  lemma {:induction false} NoClashCompatible(a: Config, b: Config, c: Config)
    requires NoClash(a, b, c)
    ensures Compatible(a, b, c)
    decreases Node(a)
  {
    forall k | k in a && k in b && k in c && a[k].Node? && c[k].Node?
      ensures b[k].Node? && Compatible(a[k].fields, b[k].fields, c[k].fields)
    {
      var here: Path := [k];
      assert MapAt(a, here) && MapAt(c, here);
      assert !Leaf(b, here).Some?;
      forall path: Path
        ensures !(MapAt(a[k].fields, path) && Leaf(b[k].fields, path).Some? && MapAt(c[k].fields, path))
      {
        var below: Path := [k] + path;
        assert below[1..] == path;
        assert !(MapAt(a, below) && Leaf(b, below).Some? && MapAt(c, below));
      }
      NoClashCompatible(a[k].fields, b[k].fields, c[k].fields);
    }
  }

  lemma {:induction false} NoClashAssociates(a: Config, b: Config, c: Config)
    requires NoClash(a, b, c)
    ensures Merge(Merge(a, b), c) == Merge(a, Merge(b, c))
  {
    NoClashCompatible(a, b, c);
    MergeAssociativeIff(a, b, c);
  }

  // ---- The loops that compute it ----

  /** The loop that copies a map, value by value. */
  method DeepCopyFields(fields: Config) returns (copied: Config)
    ensures copied == fields
    decreases Node(fields), 0
  {
    copied := map[];
    var keys := fields.Keys;
    while keys != {}
      invariant keys <= fields.Keys
      invariant copied == map k | k in fields.Keys - keys :: fields[k]
    {
      var k :| k in keys;
      var v := DeepCopyValue(fields[k]);
      copied, keys := copied[k := v], keys - {k};
    }
    assert copied == fields;
  }

  method DeepCopyValue(v: Value) returns (copy: Value)
    ensures copy == v
    decreases v, 1
  {
    match v {
      case Node(fields) =>
        var copied := DeepCopyFields(fields);
        copy := Node(copied);
      case List(items) =>
        var copied := [];
        for i := 0 to |items|
          invariant copied == items[..i]
        {
          var w := DeepCopyValue(items[i]);
          copied := copied + [w];
        }
        copy := List(copied);
      case Scalar(_) =>
        copy := v;
    }
  }

  method DeepMerge(dst: Config, src: Config) returns (result: Config)
    ensures result == Merge(dst, src)
    decreases Node(src), 1
  {
    result := DeepCopyFields(dst);
    var keys := src.Keys;
    while keys != {}
      invariant keys <= src.Keys
      invariant result.Keys == dst.Keys + (src.Keys - keys)
      invariant forall k :: k in result ==> result[k] == if k in keys then dst[k] else Merge(dst, src)[k]
    {
      var k :| k in keys;
      var v := src[k];
      if k in result && result[k].Node? && v.Node? {
        var merged := DeepMerge(result[k].fields, v.fields);
        result := result[k := Node(merged)];
      } else {
        v := DeepCopyValue(v);
        result := result[k := v];
      }
      keys := keys - {k};
    }
    assert result.Keys == Merge(dst, src).Keys;
  }

  // ---- Updating a configuration file ----

  datatype FileText = Parses(config: Config) | Malformed | Unreadable

  datatype ConfigError = AgentNotFound | NoConfigFile | FileMissing | ParseError | Invalid | NotSerialisable | IoError

  datatype Result<+T> = Success(value: T) | Failure(error: ConfigError)

  /** Whether the config can be serialised, the temporary file written and read back, and the final rename done. */
  datatype WriteEnv = WriteEnv(serialised: bool, written: bool, readable: bool, renamed: bool)

  class ConfigManager {
    const accepts: (string, Config) -> bool  // the validation rules of the agent's type
    var configFiles: map<string, string>     // registered agents and their configuration files
    var files: map<string, FileText>

    constructor (accepts: (string, Config) -> bool, configFiles: map<string, string>, files: map<string, FileText>)
      ensures this.accepts == accepts && this.configFiles == configFiles && this.files == files
    {
      this.accepts, this.configFiles, this.files := accepts, configFiles, files;
    }

    /** The content of an agent's configuration file, if there are an agent, a file name and a file. */
    function ConfigText(agentId: string): Option<FileText>
      reads this
    {
      if agentId in configFiles && configFiles[agentId] != "" && configFiles[agentId] in files
      then Some(files[configFiles[agentId]])
      else None
    }

    function ReadConfig(agentId: string): (r: Result<Config>)
      reads this
      ensures r.Success? <==> exists c :: ConfigText(agentId) == Some(Parses(c))
      ensures r.Success? ==> ConfigText(agentId) == Some(Parses(r.value))
      ensures r == Failure(ParseError) <==> ConfigText(agentId) == Some(Malformed)
      ensures r == Failure(IoError) <==> ConfigText(agentId) == Some(Unreadable)
      ensures r == Failure(AgentNotFound) <==> agentId !in configFiles
      ensures r == Failure(NoConfigFile) <==> agentId in configFiles && configFiles[agentId] == ""
      ensures r == Failure(FileMissing) <==>
              agentId in configFiles && configFiles[agentId] != "" && configFiles[agentId] !in files
    {
      if agentId !in configFiles then Failure(AgentNotFound)
      else if configFiles[agentId] == "" then Failure(NoConfigFile)
      else if configFiles[agentId] !in files then Failure(FileMissing)
      else match files[configFiles[agentId]]
        case Parses(config) => Success(config)
        case Malformed => Failure(ParseError)
        case Unreadable => Failure(IoError)
    }

    /** Either the file holds the merge, or nothing but the temporary file has changed. */
    method UpdateConfig(agentId: string, updates: Config, env: WriteEnv) returns (r: Result<()>)
      modifies this`files
      ensures r.Success? <==>
              && old(ReadConfig(agentId)).Success?
              && accepts(agentId, Merge(old(ReadConfig(agentId)).value, updates))
              && env.serialised && env.written && env.readable && env.renamed
      ensures r.Success? ==> ReadConfig(agentId) == Success(Merge(old(ReadConfig(agentId)).value, updates))
      ensures r.Failure? ==> ReadConfig(agentId) == old(ReadConfig(agentId))
      ensures r.Failure? ==>
                r.error == if old(ReadConfig(agentId)).Failure? then old(ReadConfig(agentId)).error
                           else if !accepts(agentId, Merge(old(ReadConfig(agentId)).value, updates)) then Invalid
                           else if !env.serialised then NotSerialisable
                           else IoError
      ensures r.Failure? && (r.error != IoError || old(ReadConfig(agentId)).Failure?) ==> files == old(files)
      ensures agentId in configFiles ==>
                forall f :: f !in {configFiles[agentId], configFiles[agentId] + ".tmp"} ==>
                  (f in files <==> f in old(files)) && (f in files ==> files[f] == old(files)[f])
      ensures agentId !in configFiles ==> files == old(files)
      ensures r.Success? || (r.error == IoError && old(ReadConfig(agentId)).Success? && env.written)
              ==> configFiles[agentId] + ".tmp" !in files
    {
      var current := ReadConfig(agentId);
      if current.Failure? {
        return Failure(current.error);
      }
      var merged := DeepMerge(current.value, updates);
      if !accepts(agentId, merged) {
        return Failure(Invalid);
      }
      if !env.serialised {
        return Failure(NotSerialisable);
      }
      var file := configFiles[agentId];
      var tmp := file + ".tmp";
      assert tmp != file by { assert |tmp| > |file|; }
      if !env.written {
        files := files[tmp := Malformed];
        return Failure(IoError);
      }
      files := files[tmp := Parses(merged)];
      if !env.readable {
        files := files - {tmp};
        return Failure(IoError);
      }
      if !env.renamed {
        files := files - {tmp};
        return Failure(IoError);
      }
      files := files[file := files[tmp]] - {tmp};
      return Success(());
    }
  }
}
