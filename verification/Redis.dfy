/** The key-value cache: glob patterns, joined key strings, and the service that fills and clears the
    store. */
module Redis {
  import opened Prelude

  // ---------------------------------------------------------------- glob patterns

  /** Redis glob matching: `*` any run, `?` any character, a backslash quotes the next one.  Bracket
      classes are not part of this model; no pattern of the application has one. */
  predicate Match(pattern: string, s: string)
    decreases |pattern| + |s|
  {
    if pattern == "" then s == ""
    else if pattern[0] == '*' then Match(pattern[1..], s) || (s != "" && Match(pattern, s[1..]))
    else if pattern[0] == '\\' && |pattern| > 1 then s != "" && s[0] == pattern[1] && Match(pattern[2..], s[1..])
    else s != "" && (pattern[0] == '?' || pattern[0] == s[0]) && Match(pattern[1..], s[1..])
  }

  /** Text without special characters stands for itself. */
  predicate Plain(s: string) {
    '*' !in s && '?' !in s && '\\' !in s && '[' !in s
  }

  ghost predicate Occurs(text: string, s: string) {
    exists i :: OccursAt(text, s, i)
  }

  predicate OccursAt(text: string, s: string, i: int) {
    0 <= i <= |s| - |text| && s[i..i + |text|] == text
  }

  lemma {:induction false} MatchRest(s: string)
    ensures Match("*", s)
  {
    if s != "" {
      MatchRest(s[1..]);
    } else {
      assert "*"[1..] == "";
      assert Match("*"[1..], s);
    }
  }

  lemma {:induction false} MatchPlain(text: string, s: string)
    requires Plain(text)
    ensures Match(text + "*", s) <==> text <= s
  {
    if text == "" {
      assert text + "*" == "*";
      MatchRest(s);
    } else {
      assert (text + "*")[1..] == text[1..] + "*";
      if s != "" {
        MatchPlain(text[1..], s[1..]);
        assert text == [text[0]] + text[1..] && s == [s[0]] + s[1..];
      }
    }
  }

  /** A pattern `*text*` matches exactly the strings in which `text` occurs. */
  lemma {:induction false} MatchOccurs(text: string, s: string)
    requires Plain(text)
    ensures Match("*" + text + "*", s) <==> Occurs(text, s)
    decreases |s|
  {
    var pattern := "*" + text + "*";
    assert pattern[1..] == text + "*";
    MatchPlain(text, s);
    if text <= s {
      assert OccursAt(text, s, 0);
    }
    if s == "" {
      if Occurs(text, s) {
        var i :| OccursAt(text, s, i);
      }
    } else {
      MatchOccurs(text, s[1..]);
      if Occurs(text, s[1..]) {
        var i :| OccursAt(text, s[1..], i);
        assert OccursAt(text, s, i + 1);
      }
      if Occurs(text, s) && !(text <= s) {
        var i :| OccursAt(text, s, i);
        assert OccursAt(text, s[1..], i - 1);
      }
    }
  }

  // ---------------------------------------------------------------- joined fields

  function Join(fields: seq<string>, sep: char): string
    requires fields != []
  {
    if |fields| == 1 then fields[0] else fields[0] + [sep] + Join(fields[1..], sep)
  }

  predicate Without(fields: seq<string>, sep: char) {
    forall f :: f in fields ==> sep !in f
  }

  lemma SplitsAt(f: string, t: string, sep: char)
    requires sep !in f
    ensures var s := f + [sep] + t;
            && s[|f|] == sep && sep !in s[..|f|] && s[..|f|] == f && s[|f| + 1..] == t
  {
  }

  lemma FirstField(f: string, t: string, g: string, u: string, sep: char)
    requires sep !in f && sep !in g
    ensures f + [sep] + t == g + [sep] + u <==> f == g && t == u
    ensures f + [sep] + t != g
  {
    var s, r := f + [sep] + t, g + [sep] + u;
    SplitsAt(f, t, sep);
    SplitsAt(g, u, sep);
    assert |f| < |g| ==> r[|f|] in g;
    assert |g| < |f| ==> s[|g|] in f;
    assert s[|f|] in s;
  }

  /** Joined strings are equal only when their fields are. */
  lemma {:induction false} JoinInjective(fs: seq<string>, gs: seq<string>, sep: char)
    requires fs != [] && gs != [] && Without(fs, sep) && Without(gs, sep)
    ensures Join(fs, sep) == Join(gs, sep) ==> fs == gs
  {
    if Join(fs, sep) == Join(gs, sep) {
      var t := if |fs| > 1 then Join(fs[1..], sep) else "";
      var u := if |gs| > 1 then Join(gs[1..], sep) else "";
      FirstField(fs[0], t, gs[0], u, sep);
      FirstField(gs[0], u, fs[0], t, sep);
      assert |fs| > 1 <==> |gs| > 1;
      if |fs| > 1 {
        JoinInjective(fs[1..], gs[1..], sep);
        assert fs == [fs[0]] + fs[1..] && gs == [gs[0]] + gs[1..];
      }
    }
  }

  lemma PrefixField(f: string, rest: string, g: string, t: string, sep: char)
    requires sep !in f && sep !in g
    ensures f + [sep] + rest <= g + [sep] + t <==> f == g && rest <= t
    ensures !(f + [sep] + rest <= g)
  {
    var p, s := f + [sep] + rest, g + [sep] + t;
    if p <= s {
      var u := s[|p|..];
      assert s == p + u;
      assert p + u == f + [sep] + (rest + u);
      FirstField(f, rest + u, g, t, sep);
    }
    if f == g && rest <= t {
      assert s == p + t[|rest|..];
    }
    assert p[|f|] == sep;
    assert sep in p;
    assert p <= g ==> forall c :: c in p ==> c in g;
  }

  /** A joined prefix that ends in a separator is a prefix of the fields. */
  lemma {:induction false} JoinPrefix(bs: seq<string>, fs: seq<string>, sep: char)
    requires bs != [] && fs != [] && Without(bs, sep) && Without(fs, sep)
    ensures Join(bs, sep) + [sep] <= Join(fs, sep) <==> |bs| < |fs| && bs <= fs
    decreases |bs|
  {
    var t := if |fs| > 1 then Join(fs[1..], sep) else "";
    if |bs| == 1 {
      PrefixField(bs[0], "", fs[0], t, sep);
      assert bs[0] + [sep] + "" == Join(bs, sep) + [sep];
      assert |fs| > 1 && bs[0] == fs[0] ==> bs <= fs;
    } else {
      var rest := Join(bs[1..], sep) + [sep];
      assert bs[0] + [sep] + rest == Join(bs, sep) + [sep];
      PrefixField(bs[0], rest, fs[0], t, sep);
      if |fs| > 1 {
        JoinPrefix(bs[1..], fs[1..], sep);
        assert bs == [bs[0]] + bs[1..] && fs == [fs[0]] + fs[1..];
        assert bs <= fs <==> bs[0] == fs[0] && bs[1..] <= fs[1..];
      }
    }
  }

  predicate EndsWith(f: string, a: string) {
    |a| <= |f| && f[|f| - |a|..] == a
  }

  /** An occurrence that begins in the first field crosses its separator. */
  lemma OccursAcross(a: string, rest: string, f: string, t: string, sep: char, i: nat)
    requires sep !in a && sep !in f && i <= |f|
    ensures OccursAt(a + [sep] + rest, f + [sep] + t, i) <==> f[i..] == a && rest <= t
  {
    var text, s, tail := a + [sep] + rest, f + [sep] + t, f[i..];
    assert s[i..] == tail + [sep] + t;
    PrefixField(a, rest, tail, t, sep);
    if i + |text| <= |s| {
      assert s[i..i + |text|] == s[i..][..|text|];
    }
  }

  /** An occurrence that begins later lies in the rest. */
  lemma OccursBeyond(text: string, f: string, t: string, sep: char, i: nat)
    ensures OccursAt(text, f + [sep] + t, i + |f| + 1) <==> OccursAt(text, t, i)
  {
    var s := f + [sep] + t;
    if i + |text| <= |t| {
      assert s[i + |f| + 1..i + |f| + 1 + |text|] == t[i..i + |text|];
    }
  }

  lemma OccursNot(a: string, rest: string, f: string, sep: char)
    requires sep !in f
    ensures !Occurs(a + [sep] + rest, f)
  {
    var text := a + [sep] + rest;
    assert text[|a|] == sep;
    forall i ensures !OccursAt(text, f, i) {
      if 0 <= i <= |f| - |text| {
        assert f[i..i + |text|][|a|] in f;
      }
    }
  }

  /** Where `a:rest` can occur in `f:t`: across the first separator, or later. */
  lemma OccursStep(a: string, rest: string, f: string, t: string, sep: char)
    requires sep !in a && sep !in f
    ensures Occurs(a + [sep] + rest, f + [sep] + t)
            <==> (EndsWith(f, a) && rest <= t) || Occurs(a + [sep] + rest, t)
    ensures !Occurs(a + [sep] + rest, f)
  {
    var text, s := a + [sep] + rest, f + [sep] + t;
    if Occurs(text, s) {
      var i :| OccursAt(text, s, i);
      if i <= |f| {
        OccursAcross(a, rest, f, t, sep, i);
      } else {
        OccursBeyond(text, f, t, sep, i - |f| - 1);
      }
    }
    if EndsWith(f, a) && rest <= t {
      OccursAcross(a, rest, f, t, sep, |f| - |a|);
    }
    if Occurs(text, t) {
      var i :| OccursAt(text, t, i);
      OccursBeyond(text, f, t, sep, i);
    }
    OccursNot(a, rest, f, sep);
  }

  /** The fields from `j` on read `...a`, `bs`, and then at least one more. */
  predicate FieldsAt(a: string, bs: seq<string>, fields: seq<string>, j: nat) {
    j + |bs| + 1 < |fields| && EndsWith(fields[j], a) && fields[j + 1..j + 1 + |bs|] == bs
  }

  lemma RestSlice(fields: seq<string>, j: nat, n: nat)
    requires 0 < |fields| && j + 1 + n <= |fields|
    ensures fields[1..][j..j + n] == fields[j + 1..j + 1 + n]
  {
  }

  /** Text ending in a separator occurs in a joined string only along its fields. */
  lemma {:induction false} OccursInJoin(a: string, bs: seq<string>, fields: seq<string>, sep: char)
    requires fields != [] && bs != [] && sep !in a && Without(bs, sep) && Without(fields, sep)
    ensures Occurs(a + [sep] + (Join(bs, sep) + [sep]), Join(fields, sep))
            <==> exists j: nat :: FieldsAt(a, bs, fields, j)
    decreases |fields|
  {
    var rest := Join(bs, sep) + [sep];
    if |fields| == 1 {
      OccursStep(a, rest, fields[0], "", sep);
    } else {
      var fs := fields[1..];
      OccursStep(a, rest, fields[0], Join(fs, sep), sep);
      JoinPrefix(bs, fs, sep);
      OccursInJoin(a, bs, fs, sep);
      if EndsWith(fields[0], a) && |bs| < |fs| && bs <= fs {
        RestSlice(fields, 0, |bs|);
        assert FieldsAt(a, bs, fields, 0);
      }
      if j: nat :| FieldsAt(a, bs, fs, j) {
        RestSlice(fields, j + 1, |bs|);
        assert FieldsAt(a, bs, fields, j + 1);
      }
      if j: nat :| FieldsAt(a, bs, fields, j) {
        RestSlice(fields, j, |bs|);
        if j > 0 {
          assert FieldsAt(a, bs, fs, j - 1);
        }
      }
    }
  }

  // ---------------------------------------------------------------- the service

  /** The pattern `deleteByPattern` scans with. */
  function Normalized(pattern: string): string {
    if pattern != "" && pattern[0] == '*' then pattern else "*" + pattern
  }

  /** The store with every matching key gone. */
  function Cleared<V>(store: map<string, V>, pattern: string): map<string, V> {
    map k | k in store && !Match(Normalized(pattern), k) :: store[k]
  }

  class RedisService<V> {
    /** What the client library puts in front of every key. */
    const prefix: string
    var store: map<string, V>

    constructor (prefix: string)
      ensures this.prefix == prefix && store == map[]
    {
      this.prefix := prefix;
      store := map[];
    }

    /** Reads through the cache; a missing row (`None`) is returned but never stored. */
    method GetOrSet(key: string, computed: Option<V>) returns (result: Option<V>)
      modifies this
      ensures prefix + key in old(store) ==> result == Some(old(store)[prefix + key]) && store == old(store)
      ensures prefix + key !in old(store) ==>
                result == computed && store == if computed.Some? then old(store)[prefix + key := computed.value]
                    else old(store)
    {
      if prefix + key in store {
        return Some(store[prefix + key]);
      }
      result := computed;
      if result.Some? {
        store := store[prefix + key := result.value];
      }
    }

    method Delete(key: string)
      modifies this
      ensures store == old(store) - {prefix + key}
    {
      store := store - {prefix + key};
    }

    /** Scans the keys in whatever order the server hands them out and unlinks the matching ones. */
    method DeleteByPattern(pattern: string)
      modifies this
      ensures store == Cleared(old(store), pattern)
    {
      var normalizedPattern := if pattern != "" && pattern[0] == '*' then pattern else "*" + pattern;
      var pending := store.Keys;
      while pending != {}
        invariant pending <= old(store).Keys && store.Keys <= old(store).Keys
        invariant forall k :: k in store ==> store[k] == old(store)[k]
        invariant forall k :: k in pending ==> k in store
        invariant forall k :: k in old(store) && k !in pending ==> (k in store <==> !Match(normalizedPattern, k))
        decreases pending
      {
        assert (forall k :: k !in pending) ==> pending == {};
        var key :| key in pending;
        if Match(normalizedPattern, key) {
          store := store - {key};
        }
        pending := pending - {key};
      }
    }
  }
}
