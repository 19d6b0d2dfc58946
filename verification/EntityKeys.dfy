/** Natural keys of entities (internal/modules/discovery/entity.go). */
module EntityKeys {

  const Separator: char := 0x1f as char

  function Key(kind: string, parts: seq<string>): string {
    if parts == [] then kind
    else Key(kind, parts[..|parts|-1]) + [Separator] + parts[|parts|-1]
  }

  /** What sanitising guarantees of a component. */
  predicate IsClean(s: string) {
    Separator !in s
  }

  /** The position of the last separator, or -1. */
  function LastSeparator(s: string): (i: int)
    ensures -1 <= i < |s|
    ensures i >= 0 ==> s[i] == Separator && IsClean(s[i+1..])
    ensures i < 0 ==> IsClean(s)
  {
    if s == "" then -1
    else if s[|s|-1] == Separator then |s| - 1
    else
      var i := LastSeparator(s[..|s|-1]);
      assert s == s[..|s|-1] + [s[|s|-1]];
      assert i >= 0 ==> s[i+1..] == s[..|s|-1][i+1..] + [s[|s|-1]];
      i
  }

  /** Read the components back. */
  function Parts(key: string): (string, seq<string>)
    decreases |key|
  {
    var i := LastSeparator(key);
    if i < 0 then (key, []) else (Parts(key[..i]).0, Parts(key[..i]).1 + [key[i+1..]])
  }

  lemma LastIs(head: string, part: string)
    requires IsClean(part)
    ensures LastSeparator(head + [Separator] + part) == |head|
  {
    hide LastSeparator;
    var s := head + [Separator] + part;
    assert forall k :: |head| < k < |s| ==> s[k] in part;
    forall k: nat | k <= |head| ensures Separator in s[k..] {
      assert s[k..][|head| - k] == Separator;
    }
  }

  lemma PartsMore(head: string, part: string)
    requires IsClean(part)
    ensures Parts(head + [Separator] + part) == (Parts(head).0, Parts(head).1 + [part])
  {
    LastIs(head, part);
    var s := head + [Separator] + part;
    assert s[..|head|] == head && s[|head| + 1..] == part;
  }

  lemma OnlyKind(kind: string)
    requires IsClean(kind)
    ensures Parts(kind) == (kind, [])
  {
  }

  /** A key determines its kind and its components, in order, when no component
      contains the separator. */
  lemma {:induction false} KeyIsReadable(kind: string, parts: seq<string>)
    requires IsClean(kind) && forall p :: p in parts ==> IsClean(p)
    ensures Parts(Key(kind, parts)) == (kind, parts)
  {
    hide Parts, LastSeparator, IsClean;
    if parts == [] {
      OnlyKind(kind);
    } else {
      var rest, last := parts[..|parts|-1], parts[|parts|-1];
      KeyIsReadable(kind, rest);
      PartsMore(Key(kind, rest), last);
      assert rest + [last] == parts;
    }
  }

  /** So two entities never share a key, and ("a/b", "c") is not ("a", "b/c"). */
  lemma KeysAreDistinct(kind: string, parts: seq<string>, kind': string, parts': seq<string>)
    requires IsClean(kind) && forall p :: p in parts ==> IsClean(p)
    requires IsClean(kind') && forall p :: p in parts' ==> IsClean(p)
    requires Key(kind, parts) == Key(kind', parts')
    ensures kind == kind' && parts == parts'
  {
    KeyIsReadable(kind, parts);
    KeyIsReadable(kind', parts');
  }

  /** The guarantee is needed: one component with a separator is two. */
  lemma UncleanKeysCollide(kind: string, a: string, b: string)
    ensures Key(kind, [a + [Separator] + b]) == Key(kind, [a, b])
  {
    assert [a, b][..1] == [a];
    assert Key(kind, [a]) == kind + [Separator] + a;
  }
}
