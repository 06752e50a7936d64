/** `slugify` of src/lib/utils.ts: lower-case, trim, drop every character
    other than `[a-z0-9]`, white space and `-`, turn each run of white space
    into `-`, collapse runs of `-`, and strip `-` from both ends. */
module Utils {
  import opened Text

  predicate IsAlnum(c: char) { IsLower(c) || IsDigit(c) }
  predicate IsHyphen(c: char) { c == '-' }

  /** The regex class `[a-z0-9\s-]`. */
  predicate Allowed(c: char) { IsAlnum(c) || IsSpace(c) || c == '-' }

  /** `.replace(/[^a-z0-9\s-]/g, "")`. */
  function KeepAllowed(s: string): (r: string)
    ensures forall i :: 0 <= i < |r| ==> Allowed(r[i])
    ensures (forall i :: 0 <= i < |s| ==> Allowed(s[i])) ==> r == s
  {
    if s == [] then []
    else if Allowed(s[0]) then [s[0]] + KeepAllowed(s[1..])
    else KeepAllowed(s[1..])
  }

  /** The longest suffix of `s` that does not start with a `p` character. */
  function DropRun(s: string, p: char -> bool): (r: string)
    ensures |r| <= |s| && r == s[|s| - |r|..]
    ensures forall i :: 0 <= i < |s| - |r| ==> p(s[i])
    ensures r != [] ==> !p(r[0])
    ensures s != [] && p(s[0]) ==> |r| < |s|
  {
    if s != [] && p(s[0]) then DropRun(s[1..], p) else s
  }

  /** The longest prefix of `s` that does not end with a `p` character. */
  function DropRunEnd(s: string, p: char -> bool): (r: string)
    ensures |r| <= |s| && r == s[..|r|]
    ensures forall i :: |r| <= i < |s| ==> p(s[i])
    ensures r != [] ==> !p(r[|r| - 1])
  {
    if s != [] && p(s[|s| - 1]) then DropRunEnd(s[..|s| - 1], p) else s
  }

  /** `.replace(/P+/g, rep)`: every maximal run of `p` characters becomes
      one `rep`. */
  function Squeeze(s: string, p: char -> bool, rep: char): (r: string)
    ensures s != [] && !p(s[0]) ==> r != [] && r[0] == s[0]
    ensures s != [] && p(s[0]) ==> r != [] && r[0] == rep
    ensures s == [] <==> r == []
    decreases |s|
  {
    if s == [] then []
    else if p(s[0]) then [rep] + Squeeze(DropRun(s, p), p, rep)
    else [s[0]] + Squeeze(s[1..], p, rep)
  }

  /** `.replace(/^-+|-+$/g, "")`. */
  function TrimHyphens(s: string): (r: string)
    ensures r != [] ==> r[0] != '-' && r[|r| - 1] != '-'
  {
    DropRunEnd(DropRun(s, IsHyphen), IsHyphen)
  }

  /** `slugify`: the result is a slug, and deleting its hyphens leaves
      exactly the letters and digits of the lower-cased input, in order. */
  function Slugify(text: string): (r: string)
    ensures IsSlug(r)
    ensures Unhyphen(r) == Alnums(Lower(text))
  {
    var lowered := Lower(text);
    var trimmed := Trim(lowered);
    var kept := KeepAllowed(trimmed);
    var spaced := Squeeze(kept, IsSpace, '-');
    var collapsed := Squeeze(spaced, IsHyphen, '-');
    var r := TrimHyphens(collapsed);
    StagesAlnums(lowered);
    StagesShape(kept);
    UnhyphenOfSlugChars(r);
    r
  }

  /** The stages after lower-casing keep the letters and digits. */
  lemma StagesAlnums(lowered: string)
    ensures var kept := KeepAllowed(Trim(lowered));
            var collapsed := Squeeze(Squeeze(kept, IsSpace, '-'), IsHyphen, '-');
            Alnums(TrimHyphens(collapsed)) == Alnums(lowered)
  {
    var trimmed := Trim(lowered);
    var kept := KeepAllowed(trimmed);
    var spaced := Squeeze(kept, IsSpace, '-');
    var collapsed := Squeeze(spaced, IsHyphen, '-');
    TrimAlnums(lowered);
    KeepAllowedAlnums(trimmed);
    SqueezeAlnums(kept, IsSpace, '-');
    SqueezeAlnums(spaced, IsHyphen, '-');
    TrimHyphensAlnums(collapsed);
  }

  /** The squeezes and the trim turn a string of allowed characters into a
      slug. */
  lemma StagesShape(kept: string)
    requires forall i :: 0 <= i < |kept| ==> Allowed(kept[i])
    ensures IsSlug(TrimHyphens(Squeeze(Squeeze(kept, IsSpace, '-'), IsHyphen, '-')))
  {
    var spaced := Squeeze(kept, IsSpace, '-');
    SqueezeSpacesSlugChars(kept);
    SqueezeHyphensSlugChars(spaced);
    TrimHyphensSlug(Squeeze(spaced, IsHyphen, '-'));
  }

  // ---------------------------------------------------------------------
  // The shape of a slug

  predicate SlugChars(s: string) {
    forall i :: 0 <= i < |s| ==> IsAlnum(s[i]) || s[i] == '-'
  }

  predicate NoDoubleHyphen(s: string) {
    forall i :: 0 < i < |s| ==> s[i - 1] != '-' || s[i] != '-'
  }

  predicate IsSlug(s: string) {
    SlugChars(s) && NoDoubleHyphen(s) && (s != [] ==> s[0] != '-' && s[|s| - 1] != '-')
  }

  /** `s` with its `[a-z0-9]` characters only, in order. */
  function Alnums(s: string): string {
    if s == [] then [] else (if IsAlnum(s[0]) then [s[0]] else []) + Alnums(s[1..])
  }

  /** `s` with every `-` deleted. */
  function Unhyphen(s: string): string {
    if s == [] then [] else (if s[0] == '-' then [] else [s[0]]) + Unhyphen(s[1..])
  }

  lemma {:induction false} AlnumsAppend(a: string, b: string)
    ensures Alnums(a + b) == Alnums(a) + Alnums(b)
  {
    if a != [] {
      AlnumsAppend(a[1..], b);
      assert (a + b)[0] == a[0] && (a + b)[1..] == a[1..] + b;
    } else {
      assert a + b == b;
    }
  }

  lemma {:induction false} AlnumsNone(s: string, p: char -> bool)
    requires forall i :: 0 <= i < |s| ==> p(s[i])
    requires forall c :: p(c) ==> !IsAlnum(c)
    ensures Alnums(s) == []
  {
    if s != [] {
      assert p(s[0]);
      AlnumsNone(s[1..], p);
    }
  }

  /** Deleting characters of a class disjoint from `[a-z0-9]` from a slice
      of `s` keeps its alphanumerics. */
  lemma {:induction false} AlnumsSlice(s: string, i: int, j: int, p: char -> bool)
    requires 0 <= i <= j <= |s|
    requires forall k :: 0 <= k < i ==> p(s[k])
    requires forall k :: j <= k < |s| ==> p(s[k])
    requires forall c :: p(c) ==> !IsAlnum(c)
    ensures Alnums(s[i..j]) == Alnums(s)
  {
    var a, b, c := s[..i], s[i..j], s[j..];
    assert s == (a + b) + c;
    forall k | 0 <= k < |a| ensures p(a[k]) { assert a[k] == s[k]; }
    forall k | 0 <= k < |c| ensures p(c[k]) { assert c[k] == s[j + k]; }
    AlnumsNone(a, p);
    AlnumsNone(c, p);
    AlnumsAppend(a + b, c);
    AlnumsAppend(a, b);
    assert Alnums(s) == Alnums(a + b) + Alnums(c);
    assert Alnums(a + b) == Alnums(a) + Alnums(b);
  }

  lemma {:induction false} KeepAllowedAlnums(s: string)
    ensures Alnums(KeepAllowed(s)) == Alnums(s)
  {
    if s != [] {
      KeepAllowedAlnums(s[1..]);
      if Allowed(s[0]) {
        assert Alnums([s[0]] + KeepAllowed(s[1..])) == (if IsAlnum(s[0]) then [s[0]] else []) + Alnums(KeepAllowed(s[1..]));
      }
    }
  }

  lemma AlnumsCons(c: char, t: string)
    ensures Alnums([c] + t) == (if IsAlnum(c) then [c] else []) + Alnums(t)
  {
    assert ([c] + t)[1..] == t;
  }

  lemma {:induction false} SqueezeAlnums(s: string, p: char -> bool, rep: char)
    requires forall c :: p(c) ==> !IsAlnum(c)
    requires !IsAlnum(rep)
    ensures Alnums(Squeeze(s, p, rep)) == Alnums(s)
    decreases |s|
  {
    if s != [] {
      var d := DropRun(s, p);
      if p(s[0]) {
        SqueezeAlnums(d, p, rep);
        SqueezeRunAlnums(s, p, rep);
      } else {
        var t := Squeeze(s[1..], p, rep);
        assert Squeeze(s, p, rep) == [s[0]] + t;
        SqueezeAlnums(s[1..], p, rep);
        AlnumsCons(s[0], t);
      }
    }
  }

  /** One step of `SqueezeAlnums` over a leading run: given the property for
      the rest after the run, it holds for the whole string. */
  lemma SqueezeRunAlnums(s: string, p: char -> bool, rep: char)
    requires s != [] && p(s[0])
    requires forall c :: p(c) ==> !IsAlnum(c)
    requires !IsAlnum(rep)
    requires Alnums(Squeeze(DropRun(s, p), p, rep)) == Alnums(DropRun(s, p))
    ensures Alnums(Squeeze(s, p, rep)) == Alnums(s)
  {
    var d := DropRun(s, p);
    var t := Squeeze(d, p, rep);
    assert Squeeze(s, p, rep) == [rep] + t;
    AlnumsCons(rep, t);
    DropRunAlnums(s, p);
  }

  /** Dropping a leading run of non-alphanumerics keeps the alphanumerics. */
  lemma DropRunAlnums(s: string, p: char -> bool)
    requires forall c :: p(c) ==> !IsAlnum(c)
    ensures Alnums(DropRun(s, p)) == Alnums(s)
  {
    var d := DropRun(s, p);
    var i := |s| - |d|;
    assert s[i..|s|] == d;
    assert forall k :: 0 <= k < i ==> p(s[k]);
    AlnumsSlice(s, i, |s|, p);
  }


  /** Every character of a squeezed string is `rep`, or is outside the
      class and shares any property `q` of the input's characters. */
  lemma {:induction false} SqueezeChars(s: string, p: char -> bool, q: char -> bool, rep: char)
    requires forall i :: 0 <= i < |s| ==> q(s[i])
    ensures forall i :: 0 <= i < |Squeeze(s, p, rep)| ==>
              Squeeze(s, p, rep)[i] == rep || (!p(Squeeze(s, p, rep)[i]) && q(Squeeze(s, p, rep)[i]))
    decreases |s|
  {
    if s != [] {
      var r := Squeeze(s, p, rep);
      if p(s[0]) {
        var d := DropRun(s, p);
        forall k | 0 <= k < |d| ensures q(d[k]) {
          assert d[k] == s[|s| - |d| + k];
        }
        SqueezeChars(d, p, q, rep);
        var t := Squeeze(d, p, rep);
        assert r == [rep] + t;
      } else {
        forall k | 0 <= k < |s[1..]| ensures q(s[1..][k]) {
          assert s[1..][k] == s[k + 1];
        }
        SqueezeChars(s[1..], p, q, rep);
        var t := Squeeze(s[1..], p, rep);
        assert r == [s[0]] + t;
      }
    }
  }

  lemma TrimHyphensAlnums(s: string)
    ensures Alnums(TrimHyphens(s)) == Alnums(s)
  {
    var a := DropRun(s, IsHyphen);
    var b := DropRunEnd(a, IsHyphen);
    AlnumsSlice(s, |s| - |a|, |s|, IsHyphen);
    assert s[|s| - |a|..|s|] == a;
    AlnumsSlice(a, 0, |b|, IsHyphen);
    assert a[0..|b|] == b;
  }

  lemma TrimAlnums(s: string)
    ensures Alnums(Trim(s)) == Alnums(s)
  {
    var i, j := TrimBounds(s);
    AlnumsSlice(s, i, j, IsSpace);
  }

  lemma {:induction false} SqueezeNoDouble(s: string, p: char -> bool, rep: char)
    requires p(rep)
    ensures forall i :: 0 < i < |Squeeze(s, p, rep)| ==> !p(Squeeze(s, p, rep)[i - 1]) || !p(Squeeze(s, p, rep)[i])
    decreases |s|
  {
    if s != [] {
      var r := Squeeze(s, p, rep);
      if p(s[0]) {
        var d := DropRun(s, p);
        SqueezeNoDouble(d, p, rep);
        var t := Squeeze(d, p, rep);
        assert r == [rep] + t;
        forall i | 0 < i < |r| ensures !p(r[i - 1]) || !p(r[i]) {
          if i == 1 { assert r[1] == t[0] == d[0]; } else { assert r[i - 1] == t[i - 2] && r[i] == t[i - 1]; }
        }
      } else {
        SqueezeNoDouble(s[1..], p, rep);
        var t := Squeeze(s[1..], p, rep);
        assert r == [s[0]] + t;
        forall i | 0 < i < |r| ensures !p(r[i - 1]) || !p(r[i]) {
          if i > 1 { assert r[i - 1] == t[i - 2] && r[i] == t[i - 1]; }
        }
      }
    }
  }

  /** Turning white-space runs into `-` leaves only `[a-z0-9-]` when the
      input holds only allowed characters. */
  lemma SqueezeSpacesSlugChars(s: string)
    requires forall i :: 0 <= i < |s| ==> Allowed(s[i])
    ensures SlugChars(Squeeze(s, IsSpace, '-'))
  {
    var r := Squeeze(s, IsSpace, '-');
    SqueezeChars(s, IsSpace, Allowed, '-');
    forall i | 0 <= i < |r| ensures IsAlnum(r[i]) || r[i] == '-' {
      assert r[i] == '-' || (!IsSpace(r[i]) && Allowed(r[i]));
    }
  }

  /** Collapsing `-` runs keeps `[a-z0-9-]` and leaves no `--`. */
  lemma SqueezeHyphensSlugChars(s: string)
    requires SlugChars(s)
    ensures SlugChars(Squeeze(s, IsHyphen, '-'))
    ensures NoDoubleHyphen(Squeeze(s, IsHyphen, '-'))
  {
    var r := Squeeze(s, IsHyphen, '-');
    SqueezeChars(s, IsHyphen, c => IsAlnum(c) || c == '-', '-');
    SqueezeNoDouble(s, IsHyphen, '-');
    assert NoDoubleHyphen(r) by {
      forall i | 0 < i < |r| ensures r[i - 1] != '-' || r[i] != '-' {
        assert !IsHyphen(r[i - 1]) || !IsHyphen(r[i]);
      }
    }
  }

  /** Stripping `-` from both ends of a string of `[a-z0-9-]` without `--`
      gives a slug. */
  lemma TrimHyphensSlug(s: string)
    requires SlugChars(s) && NoDoubleHyphen(s)
    ensures IsSlug(TrimHyphens(s))
  {
    var a := DropRun(s, IsHyphen);
    var r := DropRunEnd(a, IsHyphen);
    var off := |s| - |a|;
    assert r == TrimHyphens(s);
    forall i | 0 <= i < |r| ensures r[i] == s[off + i] {
      assert r[i] == a[i];
    }
    assert SlugChars(r);
    assert NoDoubleHyphen(r) by {
      forall i | 0 < i < |r| ensures r[i - 1] != '-' || r[i] != '-' {
        assert r[i - 1] == s[off + i - 1] && r[i] == s[off + i];
      }
    }
  }

  // ---------------------------------------------------------------------
  // Properties of slugify

  /** The letters and digits survive every stage of `slugify`. */
  lemma SlugifyAlnums(text: string)
    ensures Alnums(Slugify(text)) == Alnums(Lower(text))
  {
    UnhyphenOfSlugChars(Slugify(text));
  }

  lemma {:induction false} UnhyphenOfSlugChars(s: string)
    requires SlugChars(s)
    ensures Unhyphen(s) == Alnums(s)
  {
    if s != [] {
      UnhyphenOfSlugChars(s[1..]);
    }
  }

  /** An input without a letter or digit becomes the empty slug. */
  lemma SlugifyNoAlphanumerics(text: string)
    requires forall i :: 0 <= i < |text| ==> !IsAlnum(ToLowerChar(text[i]))
    ensures Slugify(text) == []
  {
    SlugifyAlnums(text);
    AlnumsNone(Lower(text), c => !IsAlnum(c));
    EmptySlug(Slugify(text));
  }

  /** A slug without letters or digits is empty. */
  lemma EmptySlug(s: string)
    requires IsSlug(s) && Alnums(s) == []
    ensures s == []
  {
    if s != [] {
      OnlyHyphens(s);
      assert false;
    }
  }

  lemma {:induction false} OnlyHyphens(s: string)
    requires SlugChars(s) && Alnums(s) == []
    ensures forall i :: 0 <= i < |s| ==> s[i] == '-'
  {
    if s != [] {
      assert !IsAlnum(s[0]);
      OnlyHyphens(s[1..]);
      forall i | 0 < i < |s| ensures s[i] == '-' { assert s[i] == s[1..][i - 1]; }
    }
  }

  lemma {:induction false} SqueezeIdle(s: string, p: char -> bool, rep: char)
    requires forall i :: 0 <= i < |s| ==> !p(s[i])
    ensures Squeeze(s, p, rep) == s
  {
    if s != [] {
      SqueezeIdle(s[1..], p, rep);
    }
  }

  lemma {:induction false} SqueezeHyphensIdle(s: string)
    requires NoDoubleHyphen(s)
    ensures Squeeze(s, IsHyphen, '-') == s
    decreases |s|
  {
    if s != [] {
      NoDoubleHyphenTail(s);
      SqueezeHyphensIdle(s[1..]);
      if s[0] == '-' {
        SingleHyphenRun(s);
      }
    }
  }

  lemma NoDoubleHyphenTail(s: string)
    requires s != [] && NoDoubleHyphen(s)
    ensures NoDoubleHyphen(s[1..])
  {
    forall i | 0 < i < |s[1..]| ensures s[1..][i - 1] != '-' || s[1..][i] != '-' {
      assert s[1..][i - 1] == s[i] && s[1..][i] == s[i + 1];
    }
  }

  /** Without `--`, a leading `-` is a run of one. */
  lemma SingleHyphenRun(s: string)
    requires s != [] && s[0] == '-' && NoDoubleHyphen(s)
    ensures DropRun(s, IsHyphen) == s[1..]
  {
    if |s| > 1 {
      assert s[1] != '-';
      assert DropRun(s[1..], IsHyphen) == s[1..];
    }
  }


  /** The characters of a slug are allowed, lower-case and not white space. */
  lemma SlugCharsPlain(s: string)
    requires SlugChars(s)
    ensures forall i :: 0 <= i < |s| ==> !IsSpace(s[i]) && Allowed(s[i]) && !IsUpper(s[i])
  {
    forall i | 0 <= i < |s|
      ensures !IsSpace(s[i]) && Allowed(s[i]) && !IsUpper(s[i])
    {
      assert IsAlnum(s[i]) || s[i] == '-';
    }
  }

  /** The first three stages of `slugify` leave a slug as it is. */
  lemma SlugPrefixStagesIdle(s: string)
    requires IsSlug(s)
    ensures KeepAllowed(Trim(Lower(s))) == s
  {
    SlugCharsPlain(s);
    assert Lower(s) == s by {
      forall i | 0 <= i < |s| ensures Lower(s)[i] == s[i] {
        assert !IsUpper(s[i]);
      }
    }
    TrimUnchanged(s);
  }

  /** A slug is its own slug. */
  lemma SlugifyFixesSlugs(s: string)
    requires IsSlug(s)
    ensures Slugify(s) == s
  {
    SlugPrefixStagesIdle(s);
    SlugCharsPlain(s);
    SqueezeIdle(s, IsSpace, '-');
    SqueezeHyphensIdle(s);
    assert TrimHyphens(s) == s by {
      if s != [] {
        assert DropRun(s, IsHyphen) == s;
        assert DropRunEnd(s, IsHyphen) == s;
      }
    }
  }

  /** `slugify` is idempotent. */
  lemma SlugifyIdempotent(text: string)
    ensures Slugify(Slugify(text)) == Slugify(text)
  {
    SlugifyFixesSlugs(Slugify(text));
  }
}
