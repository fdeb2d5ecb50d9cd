// The names, paths and modes of the files in a codec bundle (media_codec_runtime.py).

module Archive {

  type Bytes = seq<nat>
  type Path = seq<string>

  // ---- names -----------------------------------------------------------------------

  /** `name.split("/")`. */
  function Split(name: string): (parts: Path)
    ensures |parts| >= 1
  {
    if name == "" then [""]
    else
      Prepend(name[0], Split(name[1..]))
  }

  function Joined(parts: Path): string
    requires |parts| >= 1
  {
    if |parts| == 1 then parts[0] else parts[0] + "/" + Joined(parts[1..])
  }

  lemma {:induction false} SplitJoined(name: string)
    ensures Joined(Split(name)) == name
  {
    if name != "" {
      SplitJoined(name[1..]);
      JoinedPrepend(name[0], Split(name[1..]));
      assert name == [name[0]] + name[1..];
    }
  }

  lemma {:induction false} JoinedPrepend(c: char, parts: Path)
    requires |parts| >= 1
    ensures Joined(Prepend(c, parts)) == [c] + Joined(parts)
  {
    var all := Prepend(c, parts);
    if c == '/' {
      assert all[0] == "" && all[1..] == parts;
    } else {
      assert all[0] == [c] + parts[0] && all[1..] == parts[1..];
    }
  }

  /** Distinct names have distinct parts. */
  lemma SplitInjective(a: string, b: string)
    requires Split(a) == Split(b)
    ensures a == b
  {
    SplitJoined(a);
    SplitJoined(b);
  }

  predicate NameOk(name: string)
  {
    && 0 < |name| <= 240
    && '\\' !in name
    && name[0] != '/'
    && forall i :: 0 <= i < |Split(name)| ==> PlainPart(Split(name)[i])
  }

  predicate PlainPart(part: string)
  {
    part != "" && part != "." && part != ".."
  }

  /** One more character in front of a name with the given parts. */
  function Prepend(c: char, parts: Path): Path
    requires |parts| >= 1
  {
    if c == '/' then [""] + parts else [[c] + parts[0]] + parts[1..]
  }

  lemma PrependAppend(c: char, p: Path, q: Path)
    requires |p| >= 1
    ensures Prepend(c, p + q) == Prepend(c, p) + q
  {
  }

  lemma {:induction false} SplitAppend(a: string, b: string)
    ensures Split(a + ['/'] + b) == Split(a) + Split(b)
  {
    var x := a + ['/'] + b;
    if a == "" {
      assert x[0] == '/' && x[1..] == b;
    } else {
      SplitAppend(a[1..], b);
      assert x[0] == a[0] && x[1..] == a[1..] + ['/'] + b;
      PrependAppend(a[0], Split(a[1..]), Split(b));
    }
  }

  /** Any two accepted names give a third one that lies below the first: the verifier's
      rules on names alone do not keep a file from also being needed as a directory. */
  lemma {:induction false} NestedNamesAccepted(a: string, b: string)
    requires NameOk(a) && NameOk(b) && |a| + 1 + |b| <= 240
    ensures NameOk(a + ['/'] + b) && Split(a) < Split(a + ['/'] + b)
  {
    SplitAppend(a, b);
    var name := a + ['/'] + b;
    assert name[0] == a[0];
    forall i | 0 <= i < |Split(name)|
      ensures PlainPart(Split(name)[i])
    {
      assert Split(name)[i] == if i < |Split(a)| then Split(a)[i] else Split(b)[i - |Split(a)|];
    }
  }

  /** Where a relative path leads from `at`, with "." and ".." taken literally. */
  function Walk(at: Path, parts: Path): Path
    decreases |parts|
  {
    if parts == [] then at
    else if parts[0] == "" || parts[0] == "." then Walk(at, parts[1..])
    else if parts[0] == ".." then Walk(if at == [] then [] else at[..|at| - 1], parts[1..])
    else Walk(at + [parts[0]], parts[1..])
  }

  lemma {:induction false} WalkPlain(at: Path, parts: Path)
    requires forall i :: 0 <= i < |parts| ==> PlainPart(parts[i])
    ensures Walk(at, parts) == at + parts
    decreases |parts|
  {
    if parts != [] {
      WalkPlain(at + [parts[0]], parts[1..]);
      assert at + [parts[0]] + parts[1..] == at + parts;
    }
  }

  /** Every accepted name leads strictly below the destination. */
  lemma Confined(destination: Path, name: string)
    requires NameOk(name)
    ensures destination < Walk(destination, Split(name))
    ensures Walk(destination, Split(name)) == destination + Split(name)
  {
    WalkPlain(destination, Split(name));
  }

  lemma {:induction false} NoSlash(name: string)
    requires '/' !in name
    ensures Split(name) == [name]
  {
    if name != "" {
      NoSlash(name[1..]);
      assert [name[0]] + name[1..] == name;
    }
  }

  /** A name without separators is accepted as it stands. */
  lemma PlainNameOk(name: string)
    requires 0 < |name| <= 240 && '\\' !in name && '/' !in name && name != "." && name != ".."
    ensures NameOk(name)
  {
    NoSlash(name);
  }

  /** Parts without separators are the parts of the name they join to. */
  lemma {:induction false} JoinedSplit(parts: Path)
    requires |parts| >= 1 && forall i :: 0 <= i < |parts| ==> '/' !in parts[i]
    ensures Split(Joined(parts)) == parts
  {
    NoSlash(parts[0]);
    if |parts| > 1 {
      JoinedSplit(parts[1..]);
      SplitAppend(parts[0], Joined(parts[1..]));
      assert parts[0] + "/" == parts[0] + ['/'];
    }
  }

  lemma {:induction false} InJoined(parts: Path, c: char)
    requires |parts| >= 1 && c != '/'
    ensures c in Joined(parts) <==> exists i :: 0 <= i < |parts| && c in parts[i]
  {
    if |parts| > 1 {
      InJoined(parts[1..], c);
      assert c in Joined(parts) <==> c in parts[0] || c in Joined(parts[1..]);
      if c in Joined(parts[1..]) {
        var i :| 0 <= i < |parts| - 1 && c in parts[1..][i];
        assert c in parts[i + 1];
      }
    }
  }

  /** The accepted names are those of at most 240 characters put together from parts that are neither empty nor
      dots and hold no backslash. */
  lemma {:induction false} NamesOkAre(parts: Path)
    requires |parts| >= 1 && forall i :: 0 <= i < |parts| ==> '/' !in parts[i]
    ensures NameOk(Joined(parts)) <==>
              |Joined(parts)| <= 240 && forall i :: 0 <= i < |parts| ==> parts[i] !in {"", ".", ".."} && '\\' !in parts[i]
  {
    JoinedSplit(parts);
    InJoined(parts, '\\');
    if parts[0] != "" {
      assert Joined(parts)[0] == parts[0][0];
    }
  }

  const EXEC := 0x1ed   // 0o755
  const PLAIN := 0x1a4  // 0o644

  /** `freeze_modes`. */
  function FrozenMode(name: string): nat
  {
    if Split(name)[0] == "bin" then EXEC else PLAIN
  }

  predicate UnderBin(name: string)
  {
    "bin/" <= name
  }

  /** The rule the verifier applies. */
  function CheckedMode(name: string): nat
  {
    if UnderBin(name) then EXEC else PLAIN
  }

  lemma {:induction false} FirstPart(name: string)
    ensures var p := Split(name);
            if |p| == 1 then p[0] == name && '/' !in name
            else p[0] + "/" <= name && '/' !in p[0]
  {
    if name != "" {
      FirstPart(name[1..]);
      assert name == [name[0]] + name[1..];
    }
  }

  lemma FirstSlash(name: string, q: string)
    requires UnderBin(name)
    ensures '/' in name
    ensures q + "/" <= name && '/' !in q ==> q == "bin"
  {
    assert name[3] == "bin/"[3] == '/';
    if q + "/" <= name && '/' !in q {
      assert forall i :: 0 <= i < |q| ==> name[i] == (q + "/")[i] == q[i] && q[i] in q;
      assert name[|q|] == (q + "/")[|q|] == '/';
      assert forall i :: 0 <= i < 3 ==> name[i] == "bin/"[i] && "bin/"[i] != '/';
      assert q == name[..3];
    }
  }

  /** The packer's and the verifier's mode rules agree on every name except "bin" itself. */
  lemma ModesAgree(name: string)
    ensures FrozenMode(name) == CheckedMode(name) <==> name != "bin"
  {
    FirstPart(name);
    var p := Split(name);
    if UnderBin(name) {
      FirstSlash(name, p[0]);
    }
    if |p| > 1 {
      assert (p[0] + "/")[|p[0]|] == name[|p[0]|];
      assert '/' in name && '/' !in "bin";
    }
  }
}
