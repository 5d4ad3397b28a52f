/** The string and path helpers of Go's standard library that the tasks
    rely on, written out over `seq<char>`: strings.Fields, HasPrefix,
    ReplaceAll, TrimLeft, TrimSpace, ToLower, Split(...)[0], and the parts
    of filepath.Dir and filepath.Join that clean paths exercise. */
module Strings {
  import opened Common

  /** unicode.IsSpace. */
  predicate IsSpace(c: char)
  {
    c == ' ' || c == '\t' || c == '\n' || c == '\r' || c == '\U{000B}' || c == '\U{000C}'
    || c == '\U{0085}' || c == '\U{00A0}' || c == '\U{1680}'
    || ('\U{2000}' <= c <= '\U{200A}') || c == '\U{2028}' || c == '\U{2029}'
    || c == '\U{202F}' || c == '\U{205F}' || c == '\U{3000}'
  }

  predicate NoSpace(s: string)
  {
    forall i :: 0 <= i < |s| ==> !IsSpace(s[i])
  }

  /** The longest prefix of s that holds no white space. */
  function Word(s: string): (w: string)
    ensures |w| <= |s| && w == s[..|w|]
    ensures NoSpace(w)
    ensures |w| < |s| ==> IsSpace(s[|w|])
  {
    if s == [] || IsSpace(s[0]) then [] else [s[0]] + Word(s[1..])
  }

  /** strings.Fields: the maximal runs of non-space characters, in order. */
  function Fields(s: string): (r: seq<string>)
    ensures forall i :: 0 <= i < |r| ==> r[i] != [] && NoSpace(r[i])
    decreases |s|
  {
    if s == [] then []
    else if IsSpace(s[0]) then Fields(s[1..])
    else
      var w := Word(s);
      [w] + Fields(s[|w|..])
  }

  lemma {:induction false} WordOfWord(w: string, rest: string)
    requires NoSpace(w)
    requires rest == [] || IsSpace(rest[0])
    ensures Word(w + rest) == w
  {
    if w == [] {
      assert w + rest == rest;
    } else {
      assert (w + rest)[1..] == w[1..] + rest;
      WordOfWord(w[1..], rest);
    }
  }

  lemma {:induction false} FieldsOfSpaceRun(sp: string, s: string)
    requires forall i :: 0 <= i < |sp| ==> IsSpace(sp[i])
    ensures Fields(sp + s) == Fields(s)
  {
    if sp != [] {
      assert (sp + s)[1..] == sp[1..] + s;
      FieldsOfSpaceRun(sp[1..], s);
    } else {
      assert sp + s == s;
    }
  }

  lemma {:induction false} FieldsOfWordThen(w: string, rest: string)
    requires w != [] && NoSpace(w)
    requires rest == [] || IsSpace(rest[0])
    ensures Fields(w + rest) == [w] + Fields(rest)
  {
    WordOfWord(w, rest);
    assert (w + rest)[|w|..] == rest;
  }

  /** A /proc/mounts line "device mountpoint rest" splits into fields whose
      first two are the device and the mount point. */
  lemma MountLineFields(device: string, mountpoint: string, rest: string)
    requires device != [] && NoSpace(device)
    requires mountpoint != [] && NoSpace(mountpoint)
    ensures var f := Fields(device + " " + mountpoint + " " + rest);
      |f| >= 2 && f[0] == device && f[1] == mountpoint
  {
    var tail := " " + rest;
    FieldsOfSpaceRun(" ", rest);
    FieldsOfWordThen(mountpoint, tail);
    assert device + " " + mountpoint + " " + rest == device + (" " + (mountpoint + tail));
    FieldsOfSpaceRun(" ", mountpoint + tail);
    FieldsOfWordThen(device, " " + (mountpoint + tail));
  }

  /** strings.HasPrefix. */
  predicate HasPrefix(s: string, p: string)
  {
    |p| <= |s| && s[..|p|] == p
  }

  /** pat occurs in s at position i. */
  predicate OccursAt(s: string, pat: string, i: nat)
  {
    i + |pat| <= |s| && s[i..i + |pat|] == pat
  }

  predicate Occurs(s: string, pat: string)
  {
    exists i: nat :: i <= |s| && OccursAt(s, pat, i)
  }

  /** strings.ReplaceAll for a non-empty pattern: the leftmost occurrences,
      scanning left to right without overlap, are replaced. */
  function ReplaceAll(s: string, pat: string, rep: string): string
    requires pat != []
    decreases |s|
  {
    if |s| < |pat| then s
    else if s[..|pat|] == pat then rep + ReplaceAll(s[|pat|..], pat, rep)
    else [s[0]] + ReplaceAll(s[1..], pat, rep)
  }

  /** Replacing a pattern that does not occur changes nothing. */
  lemma {:induction false} ReplaceAllAbsent(s: string, pat: string, rep: string)
    requires pat != [] && !Occurs(s, pat)
    ensures ReplaceAll(s, pat, rep) == s
  {
    if |s| >= |pat| {
      assert !OccursAt(s, pat, 0);
      forall i: nat ensures !OccursAt(s[1..], pat, i) {
        if OccursAt(s[1..], pat, i) {
          assert s[1..][i..i + |pat|] == s[i + 1..i + 1 + |pat|];
          assert OccursAt(s, pat, i + 1);
        }
      }
      ReplaceAllAbsent(s[1..], pat, rep);
    }
  }

  /** The rewrite of a device-mapper path: "/dev/mapper/<name>" becomes
      "/dev/<name>" when the name holds no further "/dev/mapper". */
  lemma DeviceMapperRewrite(name: string)
    requires !Occurs(name, "/dev/mapper")
    ensures ReplaceAll("/dev/mapper" + name, "/dev/mapper", "/dev") == "/dev" + name
  {
    var s := "/dev/mapper" + name;
    assert s[..|"/dev/mapper"|] == "/dev/mapper";
    assert s[|"/dev/mapper"|..] == name;
    ReplaceAllAbsent(name, "/dev/mapper", "/dev");
  }

  /** strings.TrimLeft(s, "/"). */
  function TrimLeadingSlashes(s: string): (r: string)
    ensures |r| <= |s|
  {
    if s != [] && s[0] == '/' then TrimLeadingSlashes(s[1..]) else s
  }

  /** The text of s up to its first '/': strings.Split(s, "/")[0]. */
  function UpToSlash(s: string): (r: string)
    ensures |r| <= |s|
  {
    if s == [] || s[0] == '/' then [] else [s[0]] + UpToSlash(s[1..])
  }

  /** Split(s, "/")[0] is the slash-free prefix of s that ends at its first '/'. */
  lemma {:induction false} UpToSlashFirst(s: string)
    ensures var r := UpToSlash(s);
      r == s[..|r|] && '/' !in r && (|r| < |s| ==> s[|r|] == '/')
  {
    if !(s == [] || s[0] == '/') {
      UpToSlashFirst(s[1..]);
    }
  }

  /** strings.Split(strings.TrimLeft(p, "/"), "/")[0]: the first component of a path. */
  function FirstComponent(p: string): string
  {
    UpToSlash(TrimLeadingSlashes(p))
  }

  /** The first component of a path is c exactly when, leading slashes
      removed, the path is c or starts with c and a slash. */
  lemma FirstComponentIs(p: string, c: string)
    requires c != [] && '/' !in c
    ensures FirstComponent(p) == c <==>
      (var t := TrimLeadingSlashes(p); t == c || HasPrefix(t, c + "/"))
  {
    var t := TrimLeadingSlashes(p);
    var r := UpToSlash(t);
    UpToSlashFirst(t);
    if r == c {
      if |r| < |t| {
        assert t[..|c| + 1] == c + "/";
      } else {
        assert t == c;
      }
    }
    if t == c {
      assert UpToSlash(t) == t by { UpToSlashWhole(t); }
    } else if HasPrefix(t, c + "/") {
      assert t == c + t[|c|..];
      UpToSlashPrefix(c, t[|c|..]);
    }
  }

  lemma {:induction false} UpToSlashWhole(t: string)
    requires '/' !in t
    ensures UpToSlash(t) == t
  {
    if t != [] {
      UpToSlashWhole(t[1..]);
    }
  }

  lemma {:induction false} UpToSlashPrefix(c: string, rest: string)
    requires '/' !in c && rest != [] && rest[0] == '/'
    ensures UpToSlash(c + rest) == c
  {
    if c == [] {
      assert c + rest == rest;
    } else {
      assert (c + rest)[1..] == c[1..] + rest;
      UpToSlashPrefix(c[1..], rest);
    }
  }

  /** s without its trailing slashes. */
  function TrimTrailingSlashes(s: string): (r: string)
    ensures |r| <= |s|
  {
    if s != [] && s[|s| - 1] == '/' then TrimTrailingSlashes(s[..|s| - 1]) else s
  }

  /** Index of the last '/' in s, if any. */
  function LastSlash(s: string): (r: Option<nat>)
    ensures r.Some? ==> r.value < |s|
  {
    if s == [] then None
    else if s[|s| - 1] == '/' then Some(|s| - 1)
    else LastSlash(s[..|s| - 1])
  }

  /** LastSlash finds the last '/', and finds none only when there is none. */
  lemma {:induction false} LastSlashIsLast(s: string)
    ensures var r := LastSlash(s);
      && (r.Some? ==> s[r.value] == '/' && '/' !in s[r.value + 1..])
      && (r.None? ==> '/' !in s)
  {
    if s != [] && s[|s| - 1] != '/' {
      var r := LastSlash(s[..|s| - 1]);
      LastSlashIsLast(s[..|s| - 1]);
      assert r.Some? ==> s[r.value + 1..] == s[..|s| - 1][r.value + 1..] + [s[|s| - 1]];
      assert r.None? ==> s == s[..|s| - 1] + [s[|s| - 1]];
    }
  }

  /** filepath.Dir for paths without "." or ".." components: everything
      before the last element, trailing slashes dropped; "/" for a root
      entry, "." for a bare name. */
  function Dir(p: string): string
  {
    match LastSlash(p)
    case None => "."
    case Some(i) =>
      var d := TrimTrailingSlashes(p[..i + 1]);
      if d == [] then "/" else d
  }

  /** filepath.Join(dir, p) for a clean dir and a p whose remainder is clean. */
  function Join(dir: string, p: string): string
  {
    if p == [] then dir else dir + "/" + TrimLeadingSlashes(p)
  }

  /** strings.TrimSpace. */
  function TrimSpace(s: string): (r: string)
    ensures r == [] || (!IsSpace(r[0]) && !IsSpace(r[|r| - 1]))
    ensures |r| <= |s|
    decreases |s|
  {
    if s == [] then s
    else if IsSpace(s[0]) then TrimSpace(s[1..])
    else if IsSpace(s[|s| - 1]) then TrimSpace(s[..|s| - 1])
    else s
  }

  /** unicode.ToLower on ASCII letters. */
  function LowerChar(c: char): char
  {
    if 'A' <= c <= 'Z' then (c as int - 'A' as int + 'a' as int) as char else c
  }

  /** strings.ToLower restricted to ASCII letters. */
  function ToLower(s: string): (r: string)
    ensures |r| == |s|
    ensures forall i :: 0 <= i < |s| ==> r[i] == LowerChar(s[i])
  {
    if s == [] then [] else [LowerChar(s[0])] + ToLower(s[1..])
  }
}
