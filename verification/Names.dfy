/** File names that both halves of the file protocol must agree on: SafeName of the connector
    (internal/attachments/types.go:76-93) and safe_name of the sandbox hook (internal/sandbox/files.py:119-127).
    Names are sequences of code points; their length limit counts UTF-8 bytes. */
module Names {

  const LIMIT := 180
  const DEFAULT := "attachment"

  /** Bytes of one code point in UTF-8 (section 3 of RFC 3629). */
  function Width(c: char): (n: nat)
    ensures 1 <= n <= 4 && c as int < Capacity(n) && (n > 1 ==> c as int >= Capacity(n - 1))
  {
    var u := c as int;
    if u < 0x80 then 1 else if u < 0x800 then 2 else if u < 0x10000 then 3 else 4
  }

  /** How many code points fit in so many bytes: 7, 11, 16 or 21 payload bits. */
  ghost function Capacity(n: nat): nat {
    match n
    case 1 => 128
    case 2 => 2048
    case 3 => 65536
    case _ => 2097152
  }

  function Bytes(s: string): nat {
    if s == "" then 0 else Bytes(s[..|s| - 1]) + Width(s[|s| - 1])
  }

  /** General category Cc. */
  predicate IsControl(c: char) {
    c as int < 0x20 || 0x7f <= c as int < 0xa0
  }

  predicate IsSeparator(c: char) {
    c == '/' || c == '\\'
  }

  function Plain(c: char): char {
    if IsControl(c) || IsSeparator(c) || c == ':' then '_' else c
  }

  predicate IsPadding(c: char) {
    c == ' ' || c == '.'
  }

  /** The longest prefix that fits, with every unsafe character replaced. */
  function Capped(s: string, room: nat): string
    decreases |s|
  {
    if s == "" || Width(Plain(s[0])) > room then "" else [Plain(s[0])] + Capped(s[1..], room - Width(Plain(s[0])))
  }

  function TrimStart(s: string): string {
    if s != "" && IsPadding(s[0]) then TrimStart(s[1..]) else s
  }

  function TrimEnd(s: string): string {
    if s != "" && IsPadding(s[|s| - 1]) then TrimEnd(s[..|s| - 1]) else s
  }

  /** The cleaning both halves apply to the last component. */
  function Clean(s: string): string {
    var trimmed := TrimEnd(TrimStart(Capped(s, LIMIT)));
    if trimmed == "" then DEFAULT else trimmed
  }

  /** What follows the last separator. */
  function Last(name: string): string {
    if name == "" then "" else if IsSeparator(name[|name| - 1]) then ""
        else Last(name[..|name| - 1]) + [name[|name| - 1]]
  }

  function Unslashed(name: string): string {
    if name != "" && IsSeparator(name[|name| - 1]) then Unslashed(name[..|name| - 1]) else name
  }

  /** path.Base after backslashes became slashes: the last component that is not empty. */
  function Base(name: string): string {
    if name == "" then "." else if Unslashed(name) == "" then "/" else Last(Unslashed(name))
  }

  function PythonName(name: string): string {
    Clean(Last(name))
  }

  function GoName(name: string): string {
    Clean(Base(name))
  }

  predicate EndsInSeparator(name: string) {
    name != "" && IsSeparator(name[|name| - 1])
  }

  // --- the loops ---

  method CapLoop(name: string) returns (result: string)
    ensures result == Capped(name, LIMIT)
  {
    result := "";
    var used := 0;
    for i := 0 to |name|
      invariant used <= LIMIT
      invariant result + Capped(name[i..], LIMIT - used) == Capped(name, LIMIT)
    {
      var c := Plain(name[i]);
      if used + Width(c) > LIMIT {
        assert Capped(name[i..], LIMIT - used) == "";
        return;
      }
      assert Capped(name[i..], LIMIT - used) == [c] + Capped(name[i..][1..], LIMIT - used - Width(c));
      assert name[i..][1..] == name[i + 1..];
      assert (result + [c]) + Capped(name[i + 1..], LIMIT - used - Width(c)) == result +
          ([c] + Capped(name[i + 1..], LIMIT - used - Width(c)));
      result, used := result + [c], used + Width(c);
    }
  }

  method Trim(s: string) returns (t: string)
    ensures t == TrimEnd(TrimStart(s))
  {
    t := s;
    while t != "" && IsPadding(t[0])
      invariant TrimStart(t) == TrimStart(s)
      decreases |t|
    {
      t := t[1..];
    }
    ghost var start := t;
    while t != "" && IsPadding(t[|t| - 1])
      invariant TrimEnd(t) == TrimEnd(start)
      decreases |t|
    {
      t := t[..|t| - 1];
    }
  }

  method SafeNamePython(name: string) returns (safe: string)
    ensures safe == PythonName(name)
  {
    var i := |name|;
    assert name[..i] == name;
    var last := "";
    while i > 0 && !IsSeparator(name[i - 1])
      invariant 0 <= i <= |name| && last == name[i..]
      invariant Last(name) == Last(name[..i]) + last
    {
      assert name[..i][..i - 1] == name[..i - 1];
      last := [name[i - 1]] + last;
      assert Last(name[..i]) == Last(name[..i - 1]) + [name[i - 1]];
      i := i - 1;
    }
    assert last == Last(name);
    var capped := CapLoop(last);
    var trimmed := Trim(capped);
    safe := if trimmed == "" then DEFAULT else trimmed;
  }

  method SafeNameGo(name: string) returns (safe: string)
    ensures safe == GoName(name)
  {
    var capped := CapLoop(Base(name));
    var trimmed := Trim(capped);
    safe := if trimmed == "" then DEFAULT else trimmed;
  }

  // --- the agreement ---

  /** No control character, separator or colon, no blank or dot at either end, and at most 180 bytes. */
  ghost predicate IsSafe(s: string) {
    && s != ""
    && (forall c :: c in s ==> ' ' <= c <= '~' || c >= '\U{A0}')
    && (forall c :: c in s ==> c != '/' && c != '\\' && c != ':')
    && s[0] != ' ' && s[0] != '.' && s[|s| - 1] != ' ' && s[|s| - 1] != '.'
    && Bytes(s) <= 180
  }

  lemma PlainExactly(c: char)
    ensures Plain(c) == c <==> (' ' <= c <= '~' || c >= '\U{A0}') && c != '/' && c != '\\' && c != ':'
    ensures Plain(c) != c ==> Plain(c) == '_'
  {
  }

  lemma {:induction false} LastShape(name: string)
    ensures !EndsInSeparator(name) ==> (Last(name) == "" <==> name == "")
    ensures forall c :: c in Last(name) ==> !IsSeparator(c)
    ensures (forall c :: c in name ==> !IsSeparator(c)) ==> Last(name) == name
  {
    if name != "" && !IsSeparator(name[|name| - 1]) {
      LastShape(name[..|name| - 1]);
      assert name == name[..|name| - 1] + [name[|name| - 1]];
    }
  }

  lemma {:induction false} CappedShape(s: string, room: nat)
    ensures Bytes(Capped(s, room)) <= room
    ensures forall c :: c in Capped(s, room) ==> Plain(c) == c
    ensures (forall c :: c in s ==> Plain(c) == c) && Bytes(s) <= room ==> Capped(s, room) == s
    decreases |s|
  {
    if s != "" {
      var w := Width(Plain(s[0]));
      BytesAppend([s[0]], s[1..]);
      assert s == [s[0]] + s[1..];
      if w <= room {
        CappedShape(s[1..], room - w);
        BytesAppend([Plain(s[0])], Capped(s[1..], room - w));
      }
    }
  }

  lemma {:induction false} BytesAppend(a: string, b: string)
    ensures Bytes(a + b) == Bytes(a) + Bytes(b)
  {
    if b == "" {
      assert a + b == a;
    } else {
      assert (a + b)[..|a + b| - 1] == a + b[..|b| - 1];
      BytesAppend(a, b[..|b| - 1]);
    }
  }

  lemma {:induction false} TrimShape(s: string)
    ensures forall c :: c in TrimStart(s) ==> c in s
    ensures Bytes(TrimStart(s)) <= Bytes(s)
    ensures TrimStart(s) != "" ==> !IsPadding(TrimStart(s)[0])
  {
    if s != "" && IsPadding(s[0]) {
      assert s == [s[0]] + s[1..];
      BytesAppend([s[0]], s[1..]);
      TrimShape(s[1..]);
    }
  }

  lemma {:induction false} TrimEndShape(s: string)
    ensures forall c :: c in TrimEnd(s) ==> c in s
    ensures Bytes(TrimEnd(s)) <= Bytes(s)
    ensures TrimEnd(s) != "" ==> s != "" && TrimEnd(s)[0] == s[0] && !IsPadding(TrimEnd(s)[|TrimEnd(s)| - 1])
  {
    if s != "" && IsPadding(s[|s| - 1]) {
      TrimEndShape(s[..|s| - 1]);
    }
  }

  lemma {:induction false} CleanIsSafe(s: string)
    ensures IsSafe(Clean(s))
  {
    CappedShape(s, LIMIT);
    TrimShape(Capped(s, LIMIT));
    TrimEndShape(TrimStart(Capped(s, LIMIT)));
    DefaultIsSafe();
  }

  lemma DefaultIsSafe()
    ensures IsSafe(DEFAULT)
  {
    BytesBound(DEFAULT);
    assert forall i :: 0 <= i < |DEFAULT| ==> Plain(DEFAULT[i]) == DEFAULT[i];
  }

  lemma {:induction false} BytesBound(s: string)
    ensures Bytes(s) <= 4 * |s|
  {
    if s != "" {
      BytesBound(s[..|s| - 1]);
    }
  }

  /** A safe name is left alone by both halves. */
  lemma SafeIsFixed(s: string)
    requires IsSafe(s)
    ensures GoName(s) == s && PythonName(s) == s
  {
    assert forall c :: c in s ==> Plain(c) == c && !IsSeparator(c);
    assert !IsSeparator(s[|s| - 1]);
    LastShape(s);
    CappedShape(s, LIMIT);
  }

  /** What cleaning makes of a component: its longest prefix within the limit, unsafe characters underscored, less the
      blanks and dots at its ends, unless nothing is left. */
  lemma CleanExactly(s: string) returns (n: nat, a: nat, b: nat)
    ensures a <= b <= n <= |s|
    ensures Clean(s) == if a == b then "attachment" else Underscored(s[..n])[a..b]
    ensures forall i :: 0 <= i < a || b <= i < n ==> s[i] == ' ' || s[i] == '.'
    ensures a < b ==> s[a] != ' ' && s[a] != '.' && s[b - 1] != ' ' && s[b - 1] != '.'
    ensures Bytes(Underscored(s[..n])) <= 180 && (n < |s| ==> Bytes(Underscored(s[..n + 1])) > 180)
  {
    hide Underscored, Plain, Width;
    n := CappedExactly(s, LIMIT);
    ghost var capped := Underscored(s[..n]);
    UnderscoredAt(s, n);
    a, b := TrimExactly(capped);
    hide Clean, Bytes, Capped, TrimStart, TrimEnd;
    forall i | 0 <= i < a || b <= i < n ensures s[i] == ' ' || s[i] == '.' {
      assert capped[i] == ' ' || capped[i] == '.';
    }
  }

  lemma UnderscoredAt(s: string, n: nat)
    requires n <= |s|
    ensures |Underscored(s[..n])| == n && forall i :: 0 <= i < n ==>
              || Underscored(s[..n])[i] == s[i]
              || (Underscored(s[..n])[i] == '_' && s[i] != ' ' && s[i] != '.')
  {
  }

  lemma TrimExactly(s: string) returns (a: nat, b: nat)
    ensures a <= b <= |s| && TrimEnd(TrimStart(s)) == s[a..b]
    ensures forall i :: 0 <= i < a || b <= i < |s| ==> s[i] == ' ' || s[i] == '.'
    ensures a < b ==> s[a] != ' ' && s[a] != '.' && s[b - 1] != ' ' && s[b - 1] != '.'
  {
    a := TrimStartExactly(s);
    var end := TrimEndExactly(s[a..]);
    b := a + end;
    assert s[a..][..end] == s[a..b];
    assert forall i :: b <= i < |s| ==> s[a..][i - a] == s[i];
  }

  /** Every character that is unsafe in a file name becomes an underscore. */
  ghost function Underscored(s: string): (r: string) {
    seq(|s|, i requires 0 <= i < |s| =>
      if (' ' <= s[i] <= '~' || s[i] >= '\U{A0}') && s[i] != '/' && s[i] != '\\' && s[i] != ':' then s[i] else '_')
  }

  lemma {:induction false} CappedExactly(s: string, room: nat) returns (n: nat)
    ensures n <= |s| && Capped(s, room) == Underscored(s[..n])
    ensures Bytes(Underscored(s[..n])) <= room && (n < |s| ==> Bytes(Underscored(s[..n + 1])) > room)
    decreases |s|
  {
    if s == "" {
      n := 0;
      return;
    }
    var c := Plain(s[0]);
    PlainExactly(s[0]);
    UnderscoredMore(s, 0);
    hide Underscored, Width, Plain;
    if Width(c) > room {
      n := 0;
      return;
    }
    var rest := s[1..];
    var m := CappedExactly(rest, room - Width(c));
    assert Capped(s, room) == [c] + Capped(rest, room - Width(c));
    hide Capped;
    n := m + 1;
    UnderscoredMore(s, m);
    if n < |s| {
      UnderscoredMore(s, n);
    }
  }

  lemma UnderscoredMore(s: string, n: nat)
    requires n < |s|
    ensures Underscored(s[..n + 1]) == [Plain(s[0])] + Underscored(s[1..][..n])
    ensures Bytes(Underscored(s[..n + 1])) == Width(Plain(s[0])) + Bytes(Underscored(s[1..][..n]))
  {
    var c, rest := Plain(s[0]), Underscored(s[1..][..n]);
    PlainExactly(s[0]);
    assert Underscored(s[..n + 1]) == [c] + rest;
    BytesAppend([c], rest);
    assert [c][..0] == "" && Bytes([c]) == Bytes([c][..0]) + Width(c);
  }

  lemma {:induction false} TrimStartExactly(s: string) returns (a: nat)
    ensures a <= |s| && TrimStart(s) == s[a..]
    ensures forall i :: 0 <= i < a ==> s[i] == ' ' || s[i] == '.'
    ensures a < |s| ==> s[a] != ' ' && s[a] != '.'
  {
    a := 0;
    if s != "" && IsPadding(s[0]) {
      a := TrimStartExactly(s[1..]);
      a := a + 1;
      assert forall i :: 0 < i < a ==> s[i] == s[1..][i - 1];
    }
  }

  lemma {:induction false} TrimEndExactly(s: string) returns (b: nat)
    ensures b <= |s| && TrimEnd(s) == s[..b]
    ensures forall i :: b <= i < |s| ==> s[i] == ' ' || s[i] == '.'
    ensures b > 0 ==> s[b - 1] != ' ' && s[b - 1] != '.'
  {
    b := |s|;
    if s != "" && IsPadding(s[|s| - 1]) {
      b := TrimEndExactly(s[..|s| - 1]);
    } else {
      assert s[..b] == s;
    }
  }

  /** The component that is cleaned: what follows the last separator, in the connector after those at the end. */
  lemma LastComponent(path: string, s: string, end: string)
    requires path == "" || path[|path| - 1] == '/' || path[|path| - 1] == '\\'
    requires s != "" && (forall c :: c in s ==> c != '/' && c != '\\')
    requires forall c :: c in end ==> c == '/' || c == '\\'
    ensures GoName(path + s + end) == Clean(s)
    ensures PythonName(path + s + end) == if end == "" then Clean(s) else "attachment"
  {
    LastAfter(path, s);
    UnslashedDrops(path + s, end);
    if end != "" {
      assert (path + s + end)[|path + s + end| - 1] == end[|end| - 1] && end[|end| - 1] in end;
      assert Last(path + s + end) == "" && Clean("") == DEFAULT;
    } else {
      assert path + s + end == path + s;
    }
  }

  lemma {:induction false} LastAfter(path: string, s: string)
    requires path == "" || IsSeparator(path[|path| - 1])
    requires forall c :: c in s ==> !IsSeparator(c)
    ensures Last(path + s) == s
    ensures s != "" ==> Unslashed(path + s) == path + s && path + s != ""
  {
    if s == "" {
      assert path + s == path;
    } else {
      assert (path + s)[..|path + s| - 1] == path + s[..|s| - 1] && s[|s| - 1] in s;
      LastAfter(path, s[..|s| - 1]);
      assert s == s[..|s| - 1] + [s[|s| - 1]];
    }
  }

  lemma {:induction false} UnslashedDrops(name: string, end: string)
    requires forall c :: c in end ==> IsSeparator(c)
    ensures Unslashed(name + end) == Unslashed(name)
  {
    if end == "" {
      assert name + end == name;
    } else {
      assert end[|end| - 1] in end && (name + end)[..|name + end| - 1] == name + end[..|end| - 1];
      UnslashedDrops(name, end[..|end| - 1]);
    }
  }

  /** Cleaning twice is cleaning once, in either half. */
  lemma Idempotent(name: string)
    ensures PythonName(PythonName(name)) == PythonName(name)
    ensures GoName(GoName(name)) == GoName(name)
    ensures IsSafe(PythonName(name)) && IsSafe(GoName(name))
  {
    CleanIsSafe(Last(name));
    CleanIsSafe(Base(name));
    SafeIsFixed(PythonName(name));
    SafeIsFixed(GoName(name));
  }

  /** The halves agree on a name exactly when it does not end in a separator, or its last non-empty component cleans to
      the default anyway. */
  lemma AgreeExactly(name: string)
    ensures GoName(name) == PythonName(name) <==>
            (name == "" || (name[|name| - 1] != '/' && name[|name| - 1] != '\\')) || Clean(Base(name)) == "attachment"
  {
    if name == "" {
      assert Capped(".", LIMIT) == ['.'] + Capped("."[1..], LIMIT - 1);
      assert Capped(".", LIMIT) == ".";
      assert TrimStart(".") == TrimStart("."[1..]) && "."[1..] == "";
      assert Clean(".") == DEFAULT && Clean("") == DEFAULT;
    } else if !EndsInSeparator(name) {
      assert Unslashed(name) == name;
    } else {
      assert Last(name) == "" && Clean("") == DEFAULT;
    }
  }

  /** They do differ: of a safe name with a separator after it, one half keeps the name and the other nothing. */
  lemma Disagree(s: string, c: char)
    requires IsSafe(s) && s != DEFAULT && (c == '/' || c == '\\')
    ensures GoName(s + [c]) == s && PythonName(s + [c]) == "attachment"
  {
    var name := s + [c];
    assert name[..|name| - 1] == s && !EndsInSeparator(s) by {
      assert s[|s| - 1] in s;
    }
    SafeIsFixed(s);
    assert Unslashed(name) == s && Base(name) == Base(s);
    assert Last(name) == "";
  }

  /** A recorded name passes one half's check exactly when it passes the other's. */
  lemma SameCheck(name: string)
    ensures name == GoName(name) <==> name == PythonName(name)
  {
    CleanIsSafe(Last(name));
    CleanIsSafe(Base(name));
    if name == GoName(name) || name == PythonName(name) {
      SafeIsFixed(name);
    }
  }
}
