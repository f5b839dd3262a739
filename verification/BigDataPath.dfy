/** The files that big data keys are kept in: the directory joined with the name made of the key (storage/images.go). */
module BigDataPath {
  import opened BigDataName
  import opened Common

  const SLASH: Byte := 47
  const DOT: Byte := 46
  const HERE: Bytes := [DOT]
  const UP: Bytes := [DOT, DOT]

  /** The parts of a name between its slashes. */
  function Split(name: Bytes): (parts: seq<Bytes>)
    ensures |parts| > 0
  {
    if name == [] then [[]]
    else if name[0] == SLASH then [[]] + Split(name[1..])
    else
      var rest := Split(name[1..]);
      [[name[0]] + rest[0]] + rest[1..]
  }

  /** Joining a directory with the parts of a name, and cleaning the result. */
  function Join(dir: seq<Bytes>, parts: seq<Bytes>): seq<Bytes>
    decreases |parts|
  {
    if parts == [] then dir
    else if parts[0] == [] || parts[0] == HERE then Join(dir, parts[1..])
    else if parts[0] == UP then Join(if dir == [] then [] else dir[..|dir| - 1], parts[1..])
    else Join(dir + [parts[0]], parts[1..])
  }

  /** The file of a key. */
  function DataPath(dir: seq<Bytes>, key: Bytes): seq<Bytes> {
    Join(dir, Split(BaseName(key)))
  }

  /** The parts that make up a path. */
  function Solid(parts: seq<Bytes>): seq<Bytes> {
    if parts == [] then []
    else (if parts[0] == [] || parts[0] == HERE then [] else [parts[0]]) + Solid(parts[1..])
  }

  lemma {:induction false} JoinAppends(dir: seq<Bytes>, parts: seq<Bytes>)
    requires UP !in parts
    ensures Join(dir, parts) == dir + Solid(parts)
    decreases |parts|
  {
    if parts != [] {
      var first, rest := parts[0], parts[1..];
      assert parts == [first] + rest && UP !in rest;
      if first == [] || first == HERE {
        JoinAppends(dir, rest);
      } else {
        JoinAppends(dir + [first], rest);
        Regroup(dir, [first], Solid(rest));
      }
    }
  }

  lemma {:induction false} PartsHaveItsBytes(name: Bytes, part: Bytes, b: Byte)
    requires part in Split(name) && b in part
    ensures b in name
  {
    if name != [] {
      var rest := Split(name[1..]);
      if name[0] != SLASH && part == [name[0]] + rest[0] {
        if b != name[0] {
          PartsHaveItsBytes(name[1..], rest[0], b);
        }
      } else if part in rest {
        PartsHaveItsBytes(name[1..], part, b);
      }
    }
  }

  lemma {:induction false} EncodedHasNoDot(k: Bytes)
    ensures DOT !in Encode(k)
  {
    if |k| > 3 {
      EncodedHasNoDot(k[3..]);
    }
  }

  lemma {:induction false} SplitWithoutSlash(name: Bytes)
    requires SLASH !in name
    ensures Split(name) == [name]
  {
    if name != [] {
      assert name[0] in name && forall b :: b in name[1..] ==> b in name;
      SplitWithoutSlash(name[1..]);
      assert [name[0]] + name[1..] == name;
    }
  }

  lemma {:induction false} SplitBeforeSlash(name: Bytes)
    requires SLASH !in name
    ensures Split(name + [SLASH]) == [name, []]
  {
    var all := name + [SLASH];
    if name == [] {
      assert all[1..] == [];
    } else {
      assert name[0] in name && forall b :: b in name[1..] ==> b in name;
      assert all[1..] == name[1..] + [SLASH] && all[0] == name[0];
      SplitBeforeSlash(name[1..]);
      assert [name[0]] + name[1..] == name;
    }
  }

  /** A key that is kept as it is has a slash at its end or none. */
  lemma {:induction false} KeptSlashIsLast(key: Bytes)
    requires KeptAsIs(key)
    ensures SLASH !in key || (SLASH !in key[..|key| - 1] && key[|key| - 1] == SLASH)
  {
    if key != [] && IsPlain(key[0]) {
      KeptSlashIsLast(key[1..]);
      assert key == [key[0]] + key[1..];
      if |key| > 1 {
        assert key[..|key| - 1] == [key[0]] + key[1..][..|key| - 2];
      }
    } else if key != [] && |key| > 1 {
      assert forall i :: 0 <= i < |key| ==> key[i] as int >= 0x80;
    }
  }

  /** Only the keys ".." and "../" lead out of the directory. */
  predicate LeadsUp(key: Bytes) {
    key == UP || key == UP + [SLASH]
  }

  lemma PartsLeadUp(key: Bytes)
    ensures UP in Split(BaseName(key)) <==> LeadsUp(key)
    ensures LeadsUp(key) ==> Split(BaseName(key)) == [UP] || Split(BaseName(key)) == [UP, []]
  {
    if KeptAsIs(key) {
      KeptSlashIsLast(key);
      if SLASH !in key {
        SplitWithoutSlash(key);
        assert LeadsUp(key) ==> key == UP by {
          assert SLASH in UP + [SLASH];
        }
      } else {
        var stem := key[..|key| - 1];
        assert key == stem + [SLASH];
        SplitBeforeSlash(stem);
        assert LeadsUp(key) <==> stem == UP;
      }
    } else {
      if LeadsUp(key) {
        UpIsKept(key);
        assert false;
      }
      if UP in Split(BaseName(key)) {
        PartsHaveItsBytes(BaseName(key), UP, DOT);
        EncodedHasNoDot(key);
        assert false;
      }
    }
  }

  lemma UpIsKept(key: Bytes)
    requires LeadsUp(key)
    ensures KeptAsIs(key)
  {
    assert UP[1..] == [DOT] && [DOT][1..] == [];
    var slashed := UP + [SLASH];
    assert slashed[1..] == [DOT, SLASH] && [DOT, SLASH][1..] == [SLASH];
  }

  /** Two keys share a file exactly if both lead out of the directory, or neither does and the solid parts of their names agree. */
  lemma SharedPath(dir: seq<Bytes>, a: Bytes, b: Bytes)
    requires dir != []
    ensures DataPath(dir, a) == DataPath(dir, b) <==>
      LeadsUp(a) == LeadsUp(b) && (LeadsUp(a) || Solid(Split(BaseName(a))) == Solid(Split(BaseName(b))))
  {
    PathOf(dir, a);
    PathOf(dir, b);
    var x, y := Solid(Split(BaseName(a))), Solid(Split(BaseName(b)));
    assert (dir + x)[|dir|..] == x && (dir + y)[|dir|..] == y;
  }

  lemma PathOf(dir: seq<Bytes>, key: Bytes)
    requires dir != []
    ensures DataPath(dir, key) == if LeadsUp(key) then dir[..|dir| - 1] else dir + Solid(Split(BaseName(key)))
  {
    PartsLeadUp(key);
    var parts := Split(BaseName(key));
    if !LeadsUp(key) {
      JoinAppends(dir, parts);
    } else {
      var up := dir[..|dir| - 1];
      var nothing: seq<Bytes> := [[]];
      assert nothing[1..] == [];
      assert Join(up, []) == up && Join(up, nothing) == up;
      assert parts[0] == UP && (parts[1..] == [] || parts[1..] == nothing);
    }
  }

  /** A slash at the end makes no difference. */
  lemma TrailingSlashShares(dir: seq<Bytes>)
    requires dir != []
    ensures DataPath(dir, [97]) == DataPath(dir, [97, SLASH])
  {
    var a: Bytes := [97];
    assert [97 as Byte, SLASH][1..] == [SLASH] && a[1..] == [] && [SLASH][1..] == [];
    SplitWithoutSlash(a);
    SplitBeforeSlash(a);
    assert a + [SLASH] == [97, SLASH];
    assert UP[0] == DOT && (UP + [SLASH])[0] == DOT;
    assert KeptAsIs([SLASH]) && KeptAsIs(a + [SLASH]) && KeptAsIs(a);
    PathOf(dir, a);
    PathOf(dir, [97, SLASH]);
    var nothing: seq<Bytes> := [[]];
    assert [a, []][1..] == nothing && nothing[1..] == [] && [a][1..] == [];
    assert Solid(nothing) == [] && Solid([a, []]) == [a] == Solid([a]);
  }

  /** Three bytes whose encoding is all slashes share the file of the key "=". */
  lemma SlashesShare(dir: seq<Bytes>)
    requires dir != []
    ensures DataPath(dir, [EQUALS]) == DataPath(dir, [0xFF, 0xFF, 0xFF])
  {
    EqualsAlone();
    EncodedSlashes();
    SharedPath(dir, [EQUALS], [0xFF, 0xFF, 0xFF]);
  }

  lemma EqualsAlone()
    ensures Solid(Split(BaseName([EQUALS]))) == [[EQUALS]] && !LeadsUp([EQUALS])
  {
    SplitWithoutSlash([EQUALS]);
    assert [[EQUALS]][1..] == [] && Solid([]) == [];
    assert UP[0] == DOT && (UP + [SLASH])[0] == DOT;
  }

  lemma EncodedSlashes()
    ensures Solid(Split(BaseName([0xFF, 0xFF, 0xFF]))) == [[EQUALS]] && !LeadsUp([0xFF, 0xFF, 0xFF])
  {
    var ff: Bytes := [0xFF, 0xFF, 0xFF];
    assert UP[0] == DOT && (UP + [SLASH])[0] == DOT && ff[0] != DOT;
    assert Encode(ff) == [SLASH, SLASH, SLASH, SLASH];
    var name := [EQUALS] + Encode(ff);
    assert name == [EQUALS, SLASH, SLASH, SLASH, SLASH] && name[1..] == [SLASH, SLASH, SLASH, SLASH];
    AllSlashes();
    var parts, rest := Split(name), Split(name[1..]);
    assert rest[0] == [] && [EQUALS] + rest[0] == [EQUALS] && rest[1..] == [[], [], [], []];
    assert parts == [[EQUALS] + rest[0]] + rest[1..];
    assert parts[1..] == [[], [], [], []];
    NothingSolid();
  }

  lemma AllSlashes()
    ensures Split([SLASH, SLASH, SLASH, SLASH]) == [[], [], [], [], []]
  {
    assert [SLASH][1..] == [] && [SLASH, SLASH][1..] == [SLASH] && [SLASH, SLASH, SLASH][1..] == [SLASH, SLASH];
    assert [SLASH, SLASH, SLASH, SLASH][1..] == [SLASH, SLASH, SLASH];
    assert Split([SLASH]) == [[], []];
    assert Split([SLASH, SLASH]) == [[], [], []];
    assert Split([SLASH, SLASH, SLASH]) == [[], [], [], []];
  }

  lemma NothingSolid()
    ensures Solid([[], [], [], []]) == []
  {
    var one: seq<Bytes>, two: seq<Bytes>, three: seq<Bytes> := [[]], [[], []], [[], [], []];
    var four: seq<Bytes> := [[], [], [], []];
    assert one[1..] == [] && two[1..] == one && three[1..] == two && four[1..] == three;
    assert Solid(one) == [] && Solid(two) == [] && Solid(three) == [];
  }
}
