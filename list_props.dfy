/**
 * list_props of flightgear_python/fg_if.py: list a directory of the property
 * tree, and with a recursion limit of None or above 1 expand every
 * subdirectory in place, replacing it by the directories its own listing
 * leaves unexpanded.
 *
 * The server is a map from directory path to the text it collects in reply
 * to `ls path` (ending with the prompt); a path the map does not hold is
 * answered with "-ERR". Python's recursion limit is the `fuel` parameter:
 * running out of it is RecursionLimit.
 */
module PropsList {
  import opened Wrappers
  import opened Text
  import opened Props

  /** The dictionary list_props returns. */
  datatype Listing = Listing(directories: seq<string>, properties: map<string, PropValue>)

  /** The `ls` exchange for one path. */
  function Ls(tree: map<string, string>, path: string): (r: Result<string, Failure>)
    ensures path !in tree ==> r == Err(CommunicationError)
    ensures path in tree ==> r == Interpret(tree[path])
  {
    if path in tree then Interpret(tree[path]) else Err(CommunicationError)
  }

  /** Whether a listing expands its subdirectories. */
  predicate Recurses(limit: Option<int>)
  {
    limit.None? || limit.value > 1
  }

  /** The limit passed to the subdirectories: one less, None staying None. */
  function Lower(limit: Option<int>): (r: Option<int>)
    ensures r.None? <==> limit.None?
    ensures limit.Some? ==> r.value == limit.value - 1
  {
    match limit
    case None => None
    case Some(l) => Some(l - 1)
  }

  /** The absolute path of a child entry. */
  function Child(path: string, name: string): string
  {
    path + "/" + name
  }

  /** The directory entries of a listing, in reply order: the lines ending in '/'. */
  function DirsOf(path: string, lines: seq<string>): (dirs: seq<string>)
    ensures |dirs| <= |lines|
  {
    if lines == [] then []
    else (if EndsWith(lines[0], "/") then [Child(path, RStrip(lines[0], '/'))] else []) + DirsOf(path, lines[1..])
  }

  /** A path is a directory entry exactly when some line ending in '/' names it. */
  lemma {:induction false} DirsOfLines(path: string, lines: seq<string>, d: string)
    ensures d in DirsOf(path, lines) <==>
            exists i :: 0 <= i < |lines| && EndsWith(lines[i], "/") && d == Child(path, RStrip(lines[i], '/'))
  {
    if lines != [] {
      DirsOfLines(path, lines[1..], d);
      if d in DirsOf(path, lines[1..]) {
        var i :| 0 <= i < |lines[1..]| && EndsWith(lines[1..][i], "/") && d == Child(path, RStrip(lines[1..][i], '/'));
        assert lines[i + 1] == lines[1..][i];
      }
      if exists i :: 0 <= i < |lines| && EndsWith(lines[i], "/") && d == Child(path, RStrip(lines[i], '/')) {
        var i :| 0 <= i < |lines| && EndsWith(lines[i], "/") && d == Child(path, RStrip(lines[i], '/'));
        if i > 0 {
          assert lines[1..][i - 1] == lines[i];
        }
      }
    }
  }

  /** The directory entries of two parts of a reply, in order. */
  lemma {:induction false} DirsOfAppend(path: string, a: seq<string>, b: seq<string>)
    ensures DirsOf(path, a + b) == DirsOf(path, a) + DirsOf(path, b)
  {
    if a != [] {
      assert (a + b)[1..] == a[1..] + b;
      DirsOfAppend(path, a[1..], b);
    } else {
      assert a + b == b;
    }
  }

  /**
   * The properties of lines i.. of a listing written over `props`: every line
   * containing '=' is parsed and stored under its absolute key.
   */
  function AddProps(path: string, lines: seq<string>, i: nat, props: map<string, PropValue>, conv: Converters)
    : (r: Result<map<string, PropValue>, Failure>)
    requires i <= |lines|
    ensures r.Ok? ==> props.Keys <= r.value.Keys
    ensures r.Ok? ==> forall k :: k in r.value && k !in props ==> StartsWith(k, path + "/")
    ensures r.Err? ==> r.error == CommunicationError
    decreases |lines| - i
  {
    if i == |lines| then Ok(props)
    else if '=' !in lines[i] then AddProps(path, lines, i + 1, props, conv)
    else
      match ExtractProp(lines[i], conv)
      case Err(e) => Err(e)
      case Ok(kv) =>
        assert StartsWith(Child(path, kv.0), path + "/") by {
          assert Child(path, kv.0)[..|path + "/"|] == path + "/";
        }
        AddProps(path, lines, i + 1, props[Child(path, kv.0) := kv.1], conv)
  }

  lemma MergeThenStore(base: map<string, PropValue>, props: map<string, PropValue>, key: string, v: PropValue)
    ensures (base + props)[key := v] == base + props[key := v]
  {
  }

  /**
   * The properties of a listing are written over what the subdirectories
   * gave: the outcome does not depend on the earlier map, and the listing's
   * own properties win.
   */
  lemma {:induction false} AddPropsOver(path: string, lines: seq<string>, i: nat, base: map<string, PropValue>,
                                        props: map<string, PropValue>, conv: Converters)
    requires i <= |lines|
    ensures AddProps(path, lines, i, base + props, conv).Ok? <==> AddProps(path, lines, i, props, conv).Ok?
    ensures AddProps(path, lines, i, props, conv).Ok? ==>
              AddProps(path, lines, i, base + props, conv).value == base + AddProps(path, lines, i, props, conv).value
    decreases |lines| - i
  {
    if i < |lines| && '=' in lines[i] {
      var kv := ExtractProp(lines[i], conv);
      if kv.Ok? {
        var key := Child(path, kv.value.0);
        MergeThenStore(base, props, key, kv.value.1);
        AddPropsOver(path, lines, i + 1, base, props[key := kv.value.1], conv);
      }
    } else if i < |lines| {
      AddPropsOver(path, lines, i + 1, base, props, conv);
    }
  }

  /** Python's list.remove: drop the first occurrence (Python raises ValueError when there is none). */
  function RemoveFirst(s: seq<string>, x: string): (r: seq<string>)
    ensures x in s ==> multiset(r) == multiset(s) - multiset{x}
    ensures x !in s ==> r == s
  {
    if s == [] then []
    else if s[0] == x then
      assert s == [s[0]] + s[1..];
      s[1..]
    else
      assert s == [s[0]] + s[1..];
      [s[0]] + RemoveFirst(s[1..], x)
  }

  /** Removing a list's first entry leaves its tail. */
  lemma RemoveFirstHead(s: seq<string>)
    requires s != []
    ensures RemoveFirst(s, s[0]) == s[1..]
  {
  }

  /** Where x first occurs in s. */
  function FirstIndex(s: seq<string>, x: string): (i: nat)
    requires x in s
    ensures i < |s| && s[i] == x && x !in s[..i]
  {
    if s[0] == x then 0
    else
      assert x in s[1..] by { assert s == [s[0]] + s[1..]; }
      var j := FirstIndex(s[1..], x);
      assert s[..j + 1] == [s[0]] + s[1..][..j];
      j + 1
  }

  /** RemoveFirst takes out the first occurrence of x and keeps the order of the rest. */
  lemma {:induction false} RemoveFirstAtFirst(s: seq<string>, x: string)
    requires x in s
    ensures RemoveFirst(s, x) == s[..FirstIndex(s, x)] + s[FirstIndex(s, x) + 1..]
  {
    if s[0] == x {
      RemoveFirstHead(s);
      assert s[..0] + s[1..] == s[1..];
    } else {
      var t := s[1..];
      assert x in t by { assert s == [s[0]] + t; }
      var j := FirstIndex(t, x);
      RemoveFirstAtFirst(t, x);
      assert RemoveFirst(s, x) == [s[0]] + RemoveFirst(t, x);
      assert FirstIndex(s, x) == j + 1;
      SplitAfterHead(s, j);
    }
  }

  lemma SplitAfterHead<T>(s: seq<T>, j: nat)
    requires j + 1 < |s|
    ensures s[..j + 1] + s[j + 2..] == [s[0]] + (s[1..][..j] + s[1..][j + 1..])
  {
    assert s[..j + 1] == [s[0]] + s[1..][..j];
    assert s[j + 2..] == s[1..][j + 1..];
  }

  /** Line j of a listing is a property line that stores a value under `key`. */
  predicate StoresAt(path: string, lines: seq<string>, j: int, conv: Converters, key: string)
  {
    0 <= j < |lines| && '=' in lines[j] && ExtractProp(lines[j], conv).Ok?
    && Child(path, ExtractProp(lines[j], conv).value.0) == key
  }

  /** The property lines of lines i.. fail exactly when one of them does not parse. */
  lemma {:induction false} AddPropsOk(path: string, lines: seq<string>, i: nat, props: map<string, PropValue>,
                                      conv: Converters)
    requires i <= |lines|
    ensures AddProps(path, lines, i, props, conv).Ok? <==>
              forall j :: i <= j < |lines| && '=' in lines[j] ==> ExtractProp(lines[j], conv).Ok?
    decreases |lines| - i
  {
    if i < |lines| {
      if '=' !in lines[i] {
        AddPropsOk(path, lines, i + 1, props, conv);
      } else {
        var kv := ExtractProp(lines[i], conv);
        if kv.Ok? {
          AddPropsOk(path, lines, i + 1, props[Child(path, kv.value.0) := kv.value.1], conv);
        }
      }
    }
  }

  /** A key is present after lines i.. exactly when it was before or a property line stores it. */
  lemma {:induction false} AddPropsKeys(path: string, lines: seq<string>, i: nat, props: map<string, PropValue>,
                                        conv: Converters, key: string)
    requires i <= |lines| && AddProps(path, lines, i, props, conv).Ok?
    ensures key in AddProps(path, lines, i, props, conv).value <==>
              key in props || exists j :: i <= j && StoresAt(path, lines, j, conv, key)
    decreases |lines| - i
  {
    if i < |lines| {
      if '=' !in lines[i] {
        AddPropsKeys(path, lines, i + 1, props, conv, key);
        assert !StoresAt(path, lines, i, conv, key);
      } else {
        var kv := ExtractProp(lines[i], conv);
        var k := Child(path, kv.value.0);
        AddPropsKeys(path, lines, i + 1, props[k := kv.value.1], conv, key);
        assert StoresAt(path, lines, i, conv, key) <==> key == k;
      }
    }
  }

  /** A key stored by a property line holds the value of the last line that stores it. */
  lemma {:induction false} AddPropsLastWins(path: string, lines: seq<string>, i: nat, props: map<string, PropValue>,
                                            conv: Converters, key: string, j: nat)
    requires i <= j && StoresAt(path, lines, j, conv, key)
    requires forall j' :: j < j' ==> !StoresAt(path, lines, j', conv, key)
    requires AddProps(path, lines, i, props, conv).Ok?
    ensures key in AddProps(path, lines, i, props, conv).value
    ensures AddProps(path, lines, i, props, conv).value[key] == ExtractProp(lines[j], conv).value.1
    decreases |lines| - i
  {
    if '=' !in lines[i] {
      AddPropsLastWins(path, lines, i + 1, props, conv, key, j);
    } else {
      var kv := ExtractProp(lines[i], conv);
      var props' := props[Child(path, kv.value.0) := kv.value.1];
      if i < j {
        AddPropsLastWins(path, lines, i + 1, props', conv, key, j);
      } else {
        AddPropsKept(path, lines, i + 1, props', conv, key);
      }
    }
  }

  /** A key no property line of lines i.. stores keeps its earlier value. */
  lemma {:induction false} AddPropsKept(path: string, lines: seq<string>, i: nat, props: map<string, PropValue>,
                                        conv: Converters, key: string)
    requires i <= |lines| && key in props
    requires forall j :: i <= j ==> !StoresAt(path, lines, j, conv, key)
    requires AddProps(path, lines, i, props, conv).Ok?
    ensures key in AddProps(path, lines, i, props, conv).value
    ensures AddProps(path, lines, i, props, conv).value[key] == props[key]
    decreases |lines| - i
  {
    if i < |lines| {
      if '=' !in lines[i] {
        AddPropsKept(path, lines, i + 1, props, conv, key);
      } else {
        var kv := ExtractProp(lines[i], conv);
        assert !StoresAt(path, lines, i, conv, key);
        AddPropsKept(path, lines, i + 1, props[Child(path, kv.value.0) := kv.value.1], conv, key);
      }
    }
  }

  /**
   * The listing of a path, as list_props computes it: the reply's directories
   * and, when the limit allows, each of them expanded in turn; then the
   * reply's own properties.
   */
  function List(tree: map<string, string>, path: string, limit: Option<int>, conv: Converters, fuel: nat)
    : (r: Result<Listing, Failure>)
    decreases fuel, 0
  {
    if fuel == 0 then Err(RecursionLimit)
    else
      var p := RStrip(path, '/');
      match Ls(tree, p)
      case Err(e) => Err(e)
      case Ok(reply) =>
        var lines := Split(reply);
        var dirs := DirsOf(p, lines);
        var expanded :=
          if Recurses(limit) then Expand(tree, Lower(limit), conv, fuel - 1, dirs, 0, Listing(dirs, map[]))
          else Ok(Listing(dirs, map[]));
        match expanded
        case Err(e) => Err(e)
        case Ok(acc) =>
          match AddProps(p, lines, 0, acc.properties, conv)
          case Err(e) => Err(e)
          case Ok(props) => Ok(Listing(acc.directories, props))
  }

  /**
   * Expanding the directories todo[i..] into `acc`: each one's listing is
   * merged into the properties (later merges win), the directory itself is
   * removed and the directories its listing left are appended.
   */
  function Expand(tree: map<string, string>, limit: Option<int>, conv: Converters, fuel: nat,
                  todo: seq<string>, i: nat, acc: Listing): (r: Result<Listing, Failure>)
    requires i <= |todo|
    decreases fuel, 1, |todo| - i
  {
    if i == |todo| then Ok(acc)
    else
      match List(tree, todo[i], limit, conv, fuel)
      case Err(e) => Err(e)
      case Ok(child) =>
        Expand(tree, limit, conv, fuel, todo, i + 1,
               Listing(RemoveFirst(acc.directories, todo[i]) + child.directories, acc.properties + child.properties))
  }

  /**
   * A limit that is not None and at most 1 lists one level: the directories
   * are the reply's '/' lines and the properties only the reply's own.
   */
  lemma ListOneLevel(tree: map<string, string>, path: string, l: int, conv: Converters, fuel: nat)
    requires l <= 1 && fuel > 0
    ensures var p := RStrip(path, '/');
      List(tree, path, Some(l), conv, fuel) ==
        match Ls(tree, p)
        case Err(e) => Err(e)
        case Ok(reply) =>
          match AddProps(p, Split(reply), 0, map[], conv)
          case Err(e) => Err(e)
          case Ok(props) => Ok(Listing(DirsOf(p, Split(reply)), props))
  {
  }

  /**
   * The listing's own properties are written last: a recursive listing holds
   * the merged subdirectory properties overwritten by the reply's own.
   */
  lemma ListOwnPropertiesLast(tree: map<string, string>, path: string, limit: Option<int>, conv: Converters,
                              fuel: nat)
    requires fuel > 0 && List(tree, path, limit, conv, fuel).Ok?
    ensures var p := RStrip(path, '/');
      var lines := Split(Ls(tree, p).value);
      AddProps(p, lines, 0, map[], conv).Ok?
      && exists merged :: List(tree, path, limit, conv, fuel).value.properties == merged + AddProps(p, lines, 0, map[], conv).value
  {
    var p := RStrip(path, '/');
    var lines := Split(Ls(tree, p).value);
    var dirs := DirsOf(p, lines);
    var expanded :=
      if Recurses(limit) then Expand(tree, Lower(limit), conv, fuel - 1, dirs, 0, Listing(dirs, map[]))
      else Ok(Listing(dirs, map[]));
    var merged := expanded.value.properties;
    AddPropsOver(p, lines, 0, merged, map[], conv);
    assert merged + map[] == merged;
  }

  /** With no limit, every directory is expanded: a listing that succeeds leaves no directories. */
  lemma {:induction false} UnlimitedListLeavesNoDirectories(tree: map<string, string>, path: string,
                                                           conv: Converters, fuel: nat)
    ensures List(tree, path, None, conv, fuel).Ok? ==> List(tree, path, None, conv, fuel).value.directories == []
    decreases fuel, 0
  {
    var p := RStrip(path, '/');
    if fuel == 0 {
      assert List(tree, path, None, conv, fuel) == Err(RecursionLimit);
    } else if Ls(tree, p).Err? {
      assert List(tree, path, None, conv, fuel) == Err(Ls(tree, p).error);
    } else {
      var dirs := DirsOf(p, Split(Ls(tree, p).value));
      var expanded := Expand(tree, None, conv, fuel - 1, dirs, 0, Listing(dirs, map[]));
      UnlimitedExpandLeavesNoDirectories(tree, conv, fuel - 1, dirs, 0, map[]);
      assert dirs[0..] == dirs;
      assert expanded.Ok? ==> expanded.value.directories == [];
      ListUnlimitedUnfold(tree, path, conv, fuel);
      var r := List(tree, path, None, conv, fuel);
      assert r.Ok? ==> r.value.directories == expanded.value.directories;
    }
  }

  /** An unlimited listing keeps the directories its expansion leaves. */
  lemma ListUnlimitedUnfold(tree: map<string, string>, path: string, conv: Converters, fuel: nat)
    requires fuel > 0 && Ls(tree, RStrip(path, '/')).Ok?
    ensures var p := RStrip(path, '/');
      var dirs := DirsOf(p, Split(Ls(tree, p).value));
      var expanded := Expand(tree, None, conv, fuel - 1, dirs, 0, Listing(dirs, map[]));
      List(tree, path, None, conv, fuel).Ok? ==>
        expanded.Ok? && List(tree, path, None, conv, fuel).value.directories == expanded.value.directories
  {
    assert Recurses(None) && Lower(None) == None;
  }

  lemma {:induction false} UnlimitedExpandLeavesNoDirectories(tree: map<string, string>, conv: Converters, fuel: nat,
                                                             todo: seq<string>, i: nat, props: map<string, PropValue>)
    requires i <= |todo|
    ensures var r := Expand(tree, None, conv, fuel, todo, i, Listing(todo[i..], props));
      r.Ok? ==> r.value.directories == []
    decreases fuel, 1, |todo| - i
  {
    if i < |todo| {
      UnlimitedListLeavesNoDirectories(tree, todo[i], conv, fuel);
      var child := List(tree, todo[i], None, conv, fuel);
      if child.Ok? {
        RemoveFirstHead(todo[i..]);
        assert todo[i..][1..] == todo[i + 1..];
        assert RemoveFirst(todo[i..], todo[i]) + child.value.directories == todo[i + 1..];
        UnlimitedExpandLeavesNoDirectories(tree, conv, fuel, todo, i + 1, props + child.value.properties);
      }
    }
  }

  /** A listing depends on its path only after the trailing slashes are stripped. */
  lemma ListStripsPath(tree: map<string, string>, a: string, b: string, limit: Option<int>, conv: Converters,
                       fuel: nat)
    requires RStrip(a, '/') == RStrip(b, '/')
    ensures List(tree, a, limit, conv, fuel) == List(tree, b, limit, conv, fuel)
  {
  }

  /** The reply "/" is one entry, a directory whose path is the listed path plus a slash. */
  lemma SlashEntry(p: string)
    requires p == RStrip(p, '/')
    ensures Split("/") == ["/"]
    ensures DirsOf(p, ["/"]) == [Child(p, [])]
    ensures RStrip(Child(p, []), '/') == p
  {
    var slash: string := "/";
    assert slash[1..] == [] && Split(slash[1..]) == [[]];
    assert [slash[0]] + [] == slash;
    assert Child(p, [])[..|p|] == p;
  }

  /**
   * A reply line "/" names the directory itself again, so an unlimited listing
   * recurses until Python's recursion limit, whatever that limit is.
   */
  lemma {:induction false} SelfEntryHitsRecursionLimit(tree: map<string, string>, p: string, conv: Converters,
                                                       fuel: nat)
    requires p == RStrip(p, '/') && p in tree && tree[p] == "/" + PromptLine
    ensures List(tree, p, None, conv, fuel) == Err(RecursionLimit)
  {
    if fuel > 0 {
      var d := Child(p, []);
      InterpretFramed("/");
      SlashEntry(p);
      SelfEntryHitsRecursionLimit(tree, p, conv, fuel - 1);
      ListStripsPath(tree, d, p, None, conv, fuel - 1);
      assert Expand(tree, None, conv, fuel - 1, [d], 0, Listing([d], map[])) == Err(RecursionLimit);
    }
  }

  /**
   * list_props as the source runs it: list the path, expand its directories
   * when the limit allows, then add the reply's own properties.
   */
  method ListProps(tree: map<string, string>, path: string, limit: Option<int>, conv: Converters, fuel: nat)
    returns (r: Result<Listing, Failure>)
    ensures r == List(tree, path, limit, conv, fuel)
    decreases fuel, 1
  {
    if fuel == 0 {
      return Err(RecursionLimit);
    }
    var p := RStrip(path, '/');
    var reply := Ls(tree, p);
    if reply.Err? {
      return Err(reply.error);
    }
    var lines := Split(reply.value);
    var dirs := DirsOf(p, lines);
    var acc := Listing(dirs, map[]);
    if Recurses(limit) {
      var expanded := ExpandDirs(tree, Lower(limit), conv, fuel - 1, dirs);
      if expanded.Err? {
        return Err(expanded.error);
      }
      acc := expanded.value;
    }
    var props := AddOwnProps(p, lines, acc.properties, conv);
    if props.Err? {
      return Err(props.error);
    }
    r := Ok(Listing(acc.directories, props.value));
  }

  /**
   * The recursion loop of list_props: over a copy of the directory list, list
   * each directory, merge its properties, remove it from the list and append
   * the directories its listing left.
   */
  method ExpandDirs(tree: map<string, string>, limit: Option<int>, conv: Converters, fuel: nat, todo: seq<string>)
    returns (r: Result<Listing, Failure>)
    ensures r == Expand(tree, limit, conv, fuel, todo, 0, Listing(todo, map[]))
    decreases fuel, 2
  {
    var dirs := todo;
    var props: map<string, PropValue> := map[];
    var i := 0;
    while i < |todo|
      invariant 0 <= i <= |todo|
      invariant Expand(tree, limit, conv, fuel, todo, 0, Listing(todo, map[]))
                == Expand(tree, limit, conv, fuel, todo, i, Listing(dirs, props))
      invariant multiset(todo[i..]) <= multiset(dirs)
    {
      var child := ListProps(tree, todo[i], limit, conv, fuel);
      if child.Err? {
        return Err(child.error);
      }
      props := props + child.value.properties;
      // the directory being expanded is still in the list, so remove cannot fail
      PendingStaysListed(todo, i, dirs, child.value.directories);
      dirs := RemoveFirst(dirs, todo[i]);
      dirs := dirs + child.value.directories;
      i := i + 1;
    }
    r := Ok(Listing(dirs, props));
  }

  /** The directories still to expand stay listed after one is expanded and removed. */
  lemma PendingStaysListed(todo: seq<string>, i: nat, dirs: seq<string>, extra: seq<string>)
    requires i < |todo| && multiset(todo[i..]) <= multiset(dirs)
    ensures todo[i] in dirs
    ensures multiset(todo[i + 1..]) <= multiset(RemoveFirst(dirs, todo[i]) + extra)
  {
    assert todo[i..] == [todo[i]] + todo[i + 1..];
    assert todo[i] in multiset(todo[i..]);
    assert todo[i] in multiset(dirs);
  }

  /** The loop of list_props over the reply lines: store each property under its absolute key. */
  method AddOwnProps(path: string, lines: seq<string>, props0: map<string, PropValue>, conv: Converters)
    returns (r: Result<map<string, PropValue>, Failure>)
    ensures r == AddProps(path, lines, 0, props0, conv)
  {
    var props := props0;
    var j := 0;
    while j < |lines|
      invariant 0 <= j <= |lines|
      invariant AddProps(path, lines, 0, props0, conv) == AddProps(path, lines, j, props, conv)
    {
      if '=' in lines[j] {
        var kv := ExtractProp(lines[j], conv);
        if kv.Err? {
          return Err(kv.error);
        }
        props := props[Child(path, kv.value.0) := kv.value.1];
      }
      j := j + 1;
    }
    r := Ok(props);
  }
}
