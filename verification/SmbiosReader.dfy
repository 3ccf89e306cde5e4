/** The reader of a string set as it runs: nested loops over addresses. */
module SmbiosReader {
  import opened Bytes
  import opened Smbios

  function Prepend(s: Text, r: Option<(Text, Text)>): Option<(Text, Text)> {
    if r.None? then None else Some((s + r.value.0, r.value.1))
  }

  function PrependAll(ss: seq<Text>, r: Option<(seq<Text>, Text)>): Option<(seq<Text>, Text)> {
    if r.None? then None else Some((ss + r.value.0, r.value.1))
  }

  /** One more byte of a string. */
  lemma ReadByte(b: Text, cur: nat, bytes: Text)
    requires cur < |b| && b[cur] != 0
    ensures Prepend(bytes, ReadString(b[cur..])) == Prepend(bytes + [b[cur]], ReadString(b[cur + 1..]))
  {
    assert b[cur..][0] == b[cur] && b[cur..][1..] == b[cur + 1..];
    var r := ReadString(b[cur + 1..]);
    if r.Some? {
      assert bytes + ([b[cur]] + r.value.0) == (bytes + [b[cur]]) + r.value.0;
    }
  }

  /** The bytes up to the next NUL; `None` where the reader would run out of memory. */
  method ReadStringAt(b: Text, addr: nat) returns (r: Option<(Text, nat)>)
    requires addr <= |b|
    ensures r.None? <==> ReadString(b[addr..]).None?
    ensures r.Some? ==> r.value.1 <= |b| && ReadString(b[addr..]) == Some((r.value.0, b[r.value.1..]))
  {
    var cur, bytes: Text := addr, [];
    assert Prepend([], ReadString(b[addr..])) == ReadString(b[addr..]) by {
      var r := ReadString(b[addr..]);
      assert r.Some? ==> [] + r.value.0 == r.value.0;
    }
    while true
      invariant addr <= cur <= |b|
      invariant ReadString(b[addr..]) == Prepend(bytes, ReadString(b[cur..]))
      decreases |b| - cur
    {
      if cur == |b| {
        assert b[cur..] == [];
        return None;
      }
      if b[cur] == 0 {
        assert b[cur..][1..] == b[cur + 1..] && bytes + [] == bytes;
        return Some((bytes, cur + 1));
      }
      ReadByte(b, cur, bytes);
      bytes, cur := bytes + [b[cur]], cur + 1;
    }
  }

  lemma MoreStrings(b: Text, cur: nat, next: nat, ss: seq<Text>, s: Text)
    requires cur <= |b| && next < |b| && ReadString(b[cur..]) == Some((s, b[next..])) && b[next] != 0
    ensures PrependAll(ss, ReadStrings(b[cur..])) == PrependAll(ss + [s], ReadStrings(b[next..]))
  {
    var rest := ReadStrings(b[next..]);
    if rest.Some? {
      assert ss + ([s] + rest.value.0) == (ss + [s]) + rest.value.0;
    }
  }

  lemma LastString(b: Text, cur: nat, next: nat, ss: seq<Text>, s: Text)
    requires cur <= |b| && next < |b| && ReadString(b[cur..]) == Some((s, b[next..])) && b[next] == 0
    ensures PrependAll(ss, ReadStrings(b[cur..])) == Some((ss + [s], b[next + 1..]))
  {
    assert b[next..][1..] == b[next + 1..];
  }

  /** All strings after a structure, and the address behind the set. */
  method ReadStringSetAt(b: Text, addr: nat) returns (r: Option<(seq<Text>, nat)>)
    requires addr <= |b|
    ensures r.None? <==> ReadStringSet(b[addr..]).None?
    ensures r.Some? ==> r.value.1 <= |b| && ReadStringSet(b[addr..]) == Some((r.value.0, b[r.value.1..]))
  {
    if addr == |b| {
      return None;
    }
    if b[addr] == 0 {
      if addr + 1 == |b| || b[addr + 1] != 0 {
        return None;
      }
      assert b[addr..][2..] == b[addr + 2..];
      return Some(([], addr + 2));
    }
    var cur, strings: seq<Text> := addr, [];
    assert PrependAll([], ReadStrings(b[addr..])) == ReadStrings(b[addr..]) by {
      var all := ReadStrings(b[addr..]);
      assert all.Some? ==> [] + all.value.0 == all.value.0;
    }
    while true
      invariant addr <= cur < |b|
      invariant ReadStrings(b[addr..]) == PrependAll(strings, ReadStrings(b[cur..]))
      decreases |b| - cur
    {
      ReadStringShrinks(b[cur..]);
      var one := ReadStringAt(b, cur);
      if one.None? {
        return None;
      }
      var s, next := one.value.0, one.value.1;
      if next == |b| {
        assert b[next..] == [];
        return None;
      }
      if b[next] == 0 {
        LastString(b, cur, next, strings, s);
        return Some((strings + [s], next + 1));
      }
      MoreStrings(b, cur, next, strings, s);
      strings, cur := strings + [s], next;
    }
  }
}
