/** Forgetting a peer that is gone (mesh/ops.py: forget_peer): the JSON patch that takes its keys
    out of the cilium-clustermesh secret. */
module ForgetPeer {
  import opened Basics
  import opened Text

  /** The secret's data: base64 values by key. */
  type Secret = map<string, string>

  /** A key cilium clustermesh connect wrote for the peer: the peer's name, or that and a suffix. */
  predicate Owned(peer: string, key: string) {
    key == peer || StartsWith(key, peer + ".")
  }

  /** text.replace(c, put) for a single character. */
  function Replace(s: string, c: char, put: string): string {
    if s == [] then [] else (if s[0] == c then put else [s[0]]) + Replace(s[1..], c, put)
  }

  /** A key as one reference token of a path. */
  function Escape(key: string): string { Replace(Replace(key, '~', "~0"), '/', "~1") }

  /** text.replace(pattern, put) for a two-character pattern, left to right. */
  function ReplacePair(s: string, first: char, second: char, put: char): string {
    if |s| < 2 then s
    else if s[0] == first && s[1] == second then [put] + ReplacePair(s[2..], first, second, put)
    else [s[0]] + ReplacePair(s[1..], first, second, put)
  }

  /** Section 4 of RFC 6901: "~1" stands for "/" and then "~0" for "~". */
  function Decode(token: string): string { ReplacePair(ReplacePair(token, '~', '1', '/'), '~', '0', '~') }

  /** Section 4 of RFC 6901: the reference tokens of a path, each decoded; the first is empty. */
  function Tokens(path: string): seq<string> { Map(Split(path, '/'), Decode) }

  function PathOf(key: string): string { "/data/" + Escape(key) }

  function OwnedKeys(peer: string, keys: seq<string>): seq<string> {
    Filter(keys, (k: string) => Owned(peer, k))
  }

  /** The remove operations, as paths, in the order of the keys. */
  function Patch(peer: string, keys: seq<string>): seq<string> { Map(OwnedKeys(peer, keys), PathOf) }

  /** Section 4.2 of RFC 6902: remove takes the member out; its target must exist. A path that is
      not a member of /data is none of this secret's. */
  function Remove(data: Secret, path: string): Option<Secret> {
    var tokens := Tokens(path);
    if |tokens| == 3 && tokens[0] == "" && tokens[1] == "data" && tokens[2] in data then Some(data - {tokens[2]})
    else None
  }

  /** The operations of a patch apply in sequence; the first that fails fails the patch. */
  function ApplyPatch(data: Secret, ops: seq<string>): Option<Secret> {
    if ops == [] then Some(data)
    else
      var before := ApplyPatch(data, ops[..|ops| - 1]);
      if before.None? then None else Remove(before.value, ops[|ops| - 1])
  }

  // ---- the escape is undone by the decoding

  lemma {:induction false} EscapedHasNoSlash(s: string)
    ensures '/' !in Replace(s, '/', "~1")
  {
    if s != [] {
      EscapedHasNoSlash(s[1..]);
    }
  }

  /** After the first replacement every tilde is followed by a zero. */
  ghost predicate TildesZeroed(s: string) {
    forall i :: 0 <= i < |s| && s[i] == '~' ==> i + 1 < |s| && s[i + 1] == '0'
  }

  lemma {:induction false} ZeroedAfterFirst(key: string)
    ensures TildesZeroed(Replace(key, '~', "~0"))
  {
    if key != [] {
      ZeroedAfterFirst(key[1..]);
      var tail := Replace(key[1..], '~', "~0");
      var head := if key[0] == '~' then "~0" else [key[0]];
      assert Replace(key, '~', "~0") == head + tail;
      forall i | 0 <= i < |head + tail| && (head + tail)[i] == '~'
        ensures i + 1 < |head + tail| && (head + tail)[i + 1] == '0'
      {
        if i >= |head| {
          assert tail[i - |head|] == '~';
        }
      }
    }
  }

  lemma {:induction false} SlashesComeBack(s: string)
    requires TildesZeroed(s)
    ensures ReplacePair(Replace(s, '/', "~1"), '~', '1', '/') == s
    decreases |s|
  {
    if s != [] {
      var tail := s[1..];
      assert s == [s[0]] + tail;
      assert TildesZeroed(tail) by {
        forall i | 0 <= i < |tail| && tail[i] == '~'
          ensures i + 1 < |tail| && tail[i + 1] == '0'
        {
          assert s[i + 1] == '~';
        }
      }
      SlashesComeBack(tail);
      var e := Replace(tail, '/', "~1");
      if s[0] == '/' {
        assert ("~1" + e)[2..] == e;
      } else if s[0] == '~' {
        ZeroStays(tail);
        assert ("~" + e)[1..] == e;
      } else {
        assert ([s[0]] + e)[1..] == e;
        if e == [] {
          EmptyReplace(tail);
        }
      }
    }
  }

  lemma ZeroStays(tail: string)
    requires tail != [] && tail[0] == '0'
    ensures Replace(tail, '/', "~1") != [] && Replace(tail, '/', "~1")[0] == '0'
  {
  }

  lemma EmptyReplace(s: string)
    requires Replace(s, '/', "~1") == []
    ensures s == []
  {
  }

  lemma {:induction false} TildesComeBack(key: string)
    ensures ReplacePair(Replace(key, '~', "~0"), '~', '0', '~') == key
  {
    if key != [] {
      var tail := key[1..];
      assert key == [key[0]] + tail;
      TildesComeBack(tail);
      var e := Replace(tail, '~', "~0");
      if key[0] == '~' {
        assert ("~0" + e)[2..] == e;
      } else {
        assert ([key[0]] + e)[1..] == e;
        if |[key[0]] + e| < 2 {
          assert e == [] && ReplacePair(e, '~', '0', '~') == [];
        }
      }
    }
  }

  /** Decoding an escaped key gives the key back, whatever characters it has. */
  lemma EscapeRoundTrip(key: string)
    ensures Decode(Escape(key)) == key
    ensures '/' !in Escape(key)
  {
    ZeroedAfterFirst(key);
    SlashesComeBack(Replace(key, '~', "~0"));
    TildesComeBack(key);
    EscapedHasNoSlash(Replace(key, '~', "~0"));
  }

  lemma PathTokens(key: string)
    ensures Tokens(PathOf(key)) == ["", "data", key]
  {
    hide Escape;
    hide Decode;
    EscapeRoundTrip(key);
    var parts := ["", "data", Escape(key)];
    assert forall p :: p in parts ==> '/' !in p;
    SplitJoin(parts, '/');
    JoinThree(Escape(key));
    DecodePlain();
  }

  lemma JoinThree(last: string)
    ensures Join(["", "data", last], '/') == "/data/" + last
  {
    var parts := ["", "data", last];
    assert parts[..2][..1] == [""] && parts[..2] == ["", "data"];
    assert Join(parts[..2], '/') == "" + ['/'] + "data" == "/data";
    assert "/data" + ['/'] + last == "/data/" + last;
  }

  lemma DecodePlain()
    ensures Decode("") == "" && Decode("data") == "data"
  {
    assert ReplacePair("a", '~', '1', '/') == "a" && ReplacePair("a", '~', '0', '~') == "a";
    assert "data"[1..] == "ata" && "ata"[1..] == "ta" && "ta"[1..] == "a";
    assert ReplacePair("ta", '~', '1', '/') == "ta" && ReplacePair("ta", '~', '0', '~') == "ta";
    assert ReplacePair("ata", '~', '1', '/') == "ata" && ReplacePair("ata", '~', '0', '~') == "ata";
  }

  // ---- the patch

  lemma {:induction false} RemovesInSequence(data: Secret, keys: seq<string>)
    requires Distinct(keys) && forall k :: k in keys ==> k in data
    ensures ApplyPatch(data, Map(keys, PathOf)) == Some(data - Set(keys))
  {
    hide PathOf;
    hide Tokens;
    if keys == [] {
      assert data - Set(keys) == data;
    } else {
      var n := |keys| - 1;
      Snoc(keys);
      RemovesInSequence(data, keys[..n]);
      PathTokens(keys[n]);
      assert Map(keys, PathOf)[..n] == Map(keys[..n], PathOf);
      assert keys[n] !in Set(keys[..n]);
      assert data - Set(keys[..n]) - {keys[n]} == data - Set(keys);
    }
  }

  lemma PatchRemovesOwned(peer: string, data: Secret, keys: seq<string>)
    requires Distinct(keys) && Set(keys) == data.Keys
    ensures ApplyPatch(data, Patch(peer, keys)) == Some(map k | k in data && !Owned(peer, k) :: data[k])
  {
    hide Owned;
    var p := (k: string) => Owned(peer, k);
    FilterDistinct(keys, p);
    var owned := OwnedKeys(peer, keys);
    forall k | k in owned
      ensures k in data
    {
      assert k in Set(keys);
    }
    RemovesInSequence(data, owned);
    forall k | k in data
      ensures k in Set(owned) <==> Owned(peer, k)
    {
      assert k in Set(keys);
      assert p(k) == Owned(peer, k);
    }
    assert data - Set(owned) == map k | k in data && !Owned(peer, k) :: data[k];
  }

  /** The patch never misses a key and leaves exactly the keys the peer does not own: those that are not
      its name and do not begin with its name and a dot. */
  lemma PatchRemovesExactlyOwned(peer: string, data: Secret, keys: seq<string>)
    requires Distinct(keys) && Set(keys) == data.Keys
    ensures ApplyPatch(data, Patch(peer, keys)).Some?
    ensures var left := ApplyPatch(data, Patch(peer, keys)).value;
            forall k :: (k in left <==> k in data && k != peer && !StartsWith(k, peer + ".")) && (k in left ==> left[k] == data[k])
  {
    PatchRemovesOwned(peer, data, keys);
    hide ApplyPatch;
    hide Patch;
    hide StartsWith;
  }

  /** No key belongs to two peers whose names have no dot, as every cluster name is. */
  lemma OwnersDiffer(p: string, q: string, key: string)
    requires '.' !in p && '.' !in q && Owned(p, key) && Owned(q, key)
    ensures p == q
  {
    FirstPart(p, key);
    FirstPart(q, key);
  }

  lemma FirstPart(p: string, key: string)
    requires '.' !in p && Owned(p, key)
    ensures Partition(key, '.').0 == p
  {
    if key != p {
      var rest := key[|p| + 1..];
      assert key == p + ['.'] + rest;
      PartitionAt(p, rest, '.');
    }
  }

  /** Another peer's keys survive. */
  lemma OtherPeersKeep(peer: string, other: string, data: Secret, keys: seq<string>, k: string)
    requires Distinct(keys) && Set(keys) == data.Keys
    requires '.' !in peer && '.' !in other && peer != other
    requires k in data && Owned(other, k)
    ensures ApplyPatch(data, Patch(peer, keys)).Some?
    ensures k in ApplyPatch(data, Patch(peer, keys)).value && ApplyPatch(data, Patch(peer, keys)).value[k] == data[k]
  {
    hide ApplyPatch;
    hide Owned;
    PatchRemovesOwned(peer, data, keys);
    if Owned(peer, k) {
      OwnersDiffer(peer, other, k);
    }
  }
}
