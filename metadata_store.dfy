/** Metadata stores: a map from field name to a string, a list of strings,
    or Python's None (what the significant-properties loader stores for a
    Value element that has no text). */
module MetadataStore {

  datatype Value = Str(s: string) | List(items: seq<string>) | Null

  type Store = map<string, Value>

  /** `metadata.get(field)`: an absent key and a None value both read as None. */
  function Lookup(m: Store, field: string): (v: Value)
    ensures field !in m ==> v == Null
    ensures field in m ==> v == m[field]
  {
    if field in m then m[field] else Null
  }

  /** `metadata.get(field) is not None`: the test that gates the operations. */
  predicate Present(m: Store, field: string)
  {
    Lookup(m, field) != Null
  }

  /** A value from which `value if isinstance(value, str) else value[0]`
      yields a string: not None, and not an empty list. */
  predicate Writable(v: Value)
  {
    v != Null && (v.List? ==> |v.items| > 0)
  }

  predicate AllWritable(m: Store)
  {
    forall k :: k in m ==> Writable(m[k])
  }

  /** `str.isspace()` for one character: the characters Python's `str.strip()`
      removes when called without arguments. */
  predicate IsSpace(c: char)
  {
    var n := c as int;
    || n == 0x20
    || 0x09 <= n <= 0x0D
    || 0x1C <= n <= 0x1F
    || n == 0x85 || n == 0xA0 || n == 0x1680
    || 0x2000 <= n <= 0x200A
    || n == 0x2028 || n == 0x2029 || n == 0x202F || n == 0x205F || n == 0x3000
  }

  /** `s` without its leading whitespace (`str.lstrip()`). */
  function StripLeading(s: string): string
    decreases |s|
  {
    if s != [] && IsSpace(s[0]) then StripLeading(s[1..]) else s
  }

  /** `s` without its trailing whitespace (`str.rstrip()`). */
  function StripTrailing(s: string): string
    decreases |s|
  {
    if s != [] && IsSpace(s[|s| - 1]) then StripTrailing(s[..|s| - 1]) else s
  }

  /** `s.strip()`: `s` without its leading and trailing whitespace. */
  function Strip(s: string): string
  {
    StripTrailing(StripLeading(s))
  }

  /** What `StripLeading` removes is a prefix of whitespace, and what it
      leaves does not start with whitespace. */
  lemma {:induction false} StripLeadingSpec(s: string)
    ensures |StripLeading(s)| <= |s| && StripLeading(s) == s[|s| - |StripLeading(s)|..]
    ensures forall k :: 0 <= k < |s| - |StripLeading(s)| ==> IsSpace(s[k])
    ensures StripLeading(s) == [] || !IsSpace(StripLeading(s)[0])
    decreases |s|
  {
    if s != [] && IsSpace(s[0]) {
      StripLeadingSpec(s[1..]);
      forall k | 1 <= k < |s| - |StripLeading(s)| ensures IsSpace(s[k]) {
        assert s[1..][k - 1] == s[k];
      }
    }
  }

  /** What `StripTrailing` removes is a suffix of whitespace, and what it
      leaves does not end with whitespace. */
  lemma {:induction false} StripTrailingSpec(s: string)
    ensures |StripTrailing(s)| <= |s| && StripTrailing(s) == s[..|StripTrailing(s)|]
    ensures forall k :: |StripTrailing(s)| <= k < |s| ==> IsSpace(s[k])
    ensures StripTrailing(s) == [] || !IsSpace(StripTrailing(s)[|StripTrailing(s)| - 1])
    decreases |s|
  {
    if s != [] && IsSpace(s[|s| - 1]) {
      StripTrailingSpec(s[..|s| - 1]);
      forall k | |StripTrailing(s)| <= k < |s| - 1 ensures IsSpace(s[k]) {
        assert s[..|s| - 1][k] == s[k];
      }
    }
  }

  /** What `Strip` leaves of `s` is a contiguous part of it, everything cut
      away on either side is whitespace, and it neither starts nor ends with
      whitespace. */
  lemma StripSpec(s: string)
    ensures |Strip(s)| <= |StripLeading(s)| <= |s|
    ensures var n := |s| - |StripLeading(s)|;
      && n + |Strip(s)| <= |s|
      && Strip(s) == s[n..n + |Strip(s)|]
      && (forall k :: 0 <= k < n ==> IsSpace(s[k]))
      && (forall k :: n + |Strip(s)| <= k < |s| ==> IsSpace(s[k]))
    ensures Strip(s) == [] || (!IsSpace(Strip(s)[0]) && !IsSpace(Strip(s)[|Strip(s)| - 1]))
  {
    var rest := StripLeading(s);
    var n := |s| - |rest|;
    StripLeadingSpec(s);
    StripTrailingSpec(rest);
    forall k | n + |Strip(s)| <= k < |s| ensures IsSpace(s[k]) {
      assert s[k] == rest[k - n];
    }
    if Strip(s) != [] {
      assert Strip(s)[0] == rest[0];
    }
  }
}
