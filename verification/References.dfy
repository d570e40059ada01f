/** Typed record references: `<module>.<record_type>:<uuid>`. */
module RecordReferences {
  import opened Text
  import opened Uuid

  predicate IsSegmentHead(c: char) { 'a' <= c <= 'z' }

  predicate IsSegmentTail(c: char) { 'a' <= c <= 'z' || '0' <= c <= '9' || c == '_' }

  /** `[a-z][a-z0-9_]*` */
  predicate IsSegment(s: string) {
    |s| > 0 && IsSegmentHead(s[0]) && forall c <- s :: IsSegmentTail(c)
  }

  datatype RecordRef = RecordRef(owner: string, recordType: string, id: Id) {
    predicate Valid() { IsSegment(owner) && IsSegment(recordType) }

    function Format(): string { owner + "." + recordType + ":" + Canonical(id) }
  }

  /** `RecordRef.parse`: `None` stands for the exception `RecordRefMalformed`. */
  function Parse(value: string): Option<RecordRef> {
    match Partition(value, '.')
    case None => None
    case Some((owner, rest)) =>
      match Partition(rest, ':')
      case None => None
      case Some((recordType, rawId)) =>
        if !IsSegment(owner) || !IsSegment(recordType) || rawId == "" || ':' in rawId then None
        else match ParseLoose(rawId)
          case None => None
          case Some(id) => if Canonical(id) == rawId then Some(RecordRef(owner, recordType, id)) else None
  }

  lemma ParseOfFormat(ref: RecordRef)
    requires ref.Valid()
    ensures Parse(ref.Format()) == Some(ref)
  {
    var id := Canonical(ref.id);
    assert ref.Format() == ref.owner + ['.'] + (ref.recordType + [':'] + id);
    PartitionUnique(ref.owner, ref.recordType + [':'] + id, '.');
    PartitionUnique(ref.recordType, id, ':');
    ParseLooseOfCanonical(ref.id);
    CanonicalShape(ref.id);
  }

  /** 36 characters: lower-case digits, with dashes after the 8th, 12th, 16th and 20th. */
  lemma CanonicalShape(n: Id)
    ensures |Canonical(n)| == 36 && ':' !in Canonical(n)
    ensures forall i | 0 <= i < 36 ::
      if i in {8, 13, 18, 23} then Canonical(n)[i] == '-' else IsLowerHex(Canonical(n)[i])
  {
    var h := Hex(n, 32);
    assert forall c <- Canonical(n) :: c == '-' || c in h;
  }

  lemma FormatOfParse(value: string, ref: RecordRef)
    requires Parse(value) == Some(ref)
    ensures ref.Valid() && value == ref.Format()
  {
  }

  /** The parser accepts exactly what the printer writes for a valid reference, and undoes it. */
  lemma ParseInvertsFormat(value: string, ref: RecordRef)
    ensures Parse(value) == Some(ref) <==> ref.Valid() && value == ref.Format()
  {
    if ref.Valid() { ParseOfFormat(ref); }
    if Parse(value) == Some(ref) { FormatOfParse(value, ref); }
  }
}

/** Secret references `secret://<file|env>/<id>` and the scopes that may resolve them. */
module SecretReferences {
  import opened Text

  const SCHEME := "secret://"

  datatype Backend = File | Env

  function BackendName(b: Backend): string {
    match b case File => "file" case Env => "env"
  }

  predicate IsSlugChar(c: char) { 'a' <= c <= 'z' || '0' <= c <= '9' }

  /** `[a-z0-9]+(?:-[a-z0-9]+)*`: non-empty runs joined by single hyphens. */
  predicate IsFileSegment(s: string) {
    forall run <- Split(s, '-') :: run != "" && forall c <- run :: IsSlugChar(c)
  }

  predicate IsSlugPath(s: string) {
    s != "" && forall segment <- Split(s, '/') :: IsFileSegment(segment)
  }

  predicate IsLetter(c: char) { 'a' <= c <= 'z' || 'A' <= c <= 'Z' || c == '_' }

  predicate IsEnvName(s: string) {
    |s| > 0 && IsLetter(s[0]) && forall c <- s :: IsLetter(c) || '0' <= c <= '9'
  }

  datatype SecretRef = SecretRef(backend: Backend, id: string) {
    predicate Valid() {
      match backend case File => IsSlugPath(id) case Env => IsEnvName(id)
    }

    function Text(): string { SCHEME + BackendName(backend) + "/" + id }
  }

  function BackendNamed(name: string): Option<Backend> {
    if name == "file" then Some(File) else if name == "env" then Some(Env) else None
  }

  /** `SecretRef.parse`: `None` stands for the refusal `secret_ref_malformed`. */
  function Parse(text: string): Option<SecretRef> {
    if !(SCHEME <= text) then None
    else match Partition(text[|SCHEME|..], '/')
      case None => None
      case Some((name, id)) =>
        match BackendNamed(name)
        case None => None
        case Some(backend) =>
          var ref := SecretRef(backend, id);
          if ref.Valid() then Some(ref) else None
  }

  lemma TextParts(backend: Backend, id: string)
    ensures var text := SecretRef(backend, id).Text();
      SCHEME <= text && Partition(text[|SCHEME|..], '/') == Some((BackendName(backend), id))
  {
    var name, text := BackendName(backend), SecretRef(backend, id).Text();
    assert text[|SCHEME|..] == name + ['/'] + id;
    PartitionUnique(name, id, '/');
  }

  lemma ParseOfText(ref: SecretRef)
    requires ref.Valid()
    ensures Parse(ref.Text()) == Some(ref)
  {
    TextParts(ref.backend, ref.id);
  }

  lemma TextOfParse(text: string, ref: SecretRef)
    requires Parse(text) == Some(ref)
    ensures ref.Valid() && text == ref.Text()
  {
  }

  /** The parser accepts exactly what the printer writes for a valid reference, and undoes it. */
  lemma ParseInvertsText(text: string, ref: SecretRef)
    ensures Parse(text) == Some(ref) <==> ref.Valid() && text == ref.Text()
  {
    if ref.Valid() { ParseOfText(ref); }
    if Parse(text) == Some(ref) { TextOfParse(text, ref); }
  }

  /** A slug path names no empty, dot or dot-dot segment, so it cannot leave its directory. */
  lemma SlugPathStaysInside(id: string)
    requires IsSlugPath(id)
    ensures forall segment <- Split(id, '/') :: segment != "" && '.' !in segment
  {
    forall segment | segment in Split(id, '/') ensures segment != "" && '.' !in segment {
      assert IsFileSegment(segment);
      var runs := Split(segment, '-');
      assert runs[0] in runs;
      JoinOfSplit(segment, '-');
      if '.' in segment { DotSurvivesSplit(segment); }
    }
  }

  lemma {:induction false} DotSurvivesSplit(s: string)
    requires '.' in s
    ensures exists run <- Split(s, '-') :: '.' in run
  {
    var rest := Split(s[1..], '-');
    if '.' in s[1..] {
      DotSurvivesSplit(s[1..]);
      var run :| run in rest && '.' in run;
      var i :| 0 <= i < |rest| && rest[i] == run;
      var all := Split(s, '-');
      if s[0] == '-' {
        assert all[i + 1] == run && run in all;
      } else if i > 0 {
        assert all[i] == run && run in all;
      } else {
        assert all[0] == [s[0]] + run && all[0] in all;
        assert forall c <- run :: c in all[0];
      }
    } else {
      assert s[0] == '.' && Split(s, '-')[0] == [s[0]] + rest[0];
      assert Split(s, '-')[0] in Split(s, '-');
    }
  }

  predicate EndsWithSlash(s: string) { |s| > 0 && s[|s| - 1] == '/' }

  /** `SecretScope.permits`: a scan over the prefixes, stopping at the first that covers the reference. */
  method Permits(prefixes: seq<string>, ref: SecretRef) returns (ok: bool)
    requires ref.Valid()
    ensures ok <==> exists p <- prefixes :: CoversBySegments(p, ref.Text())
  {
    var text := ref.Text();
    for i := 0 to |prefixes|
      invariant forall p <- prefixes[..i] :: !CoversBySegments(p, text)
    {
      var prefix := prefixes[i];
      CoveringIsSegmentwise(prefix, ref);
      if text == prefix {
        return true;
      }
      var covered := if EndsWithSlash(prefix) then prefix else prefix + "/";
      if covered <= text {
        return true;
      }
    }
    assert prefixes[..|prefixes|] == prefixes;
    return false;
  }

  /** The test `permits` makes on one prefix, on the raw text. */
  predicate CoversByText(prefix: string, text: string) {
    text == prefix || (if EndsWithSlash(prefix) then prefix else prefix + "/") <= text
  }

  /**
   * What that test means: the prefix's segments begin the reference's segments. A prefix that ends in a
   * slash covers only what is strictly beneath it.
   */
  predicate CoversBySegments(prefix: string, text: string) {
    if EndsWithSlash(prefix) then Split(prefix[..|prefix| - 1], '/') < Split(text, '/')
    else Split(prefix, '/') <= Split(text, '/')
  }

  lemma JoinOfConcat(a: seq<string>, b: seq<string>)
    requires |a| > 0 && |b| > 0
    ensures Join(a + b, '/') == Join(a, '/') + "/" + Join(b, '/')
  {
    if |a| == 1 {
      assert (a + b)[1..] == b;
    } else {
      assert (a + b)[1..] == a[1..] + b;
      JoinOfConcat(a[1..], b);
      assert Join(a + b, '/') == a[0] + "/" + (Join(a[1..], '/') + "/" + Join(b, '/'));
      assert Join(a, '/') == a[0] + "/" + Join(a[1..], '/');
    }
  }

  lemma BeneathIsProperPrefix(x: string, y: string)
    ensures x + "/" <= y <==> Split(x, '/') < Split(y, '/')
  {
    if x + "/" <= y {
      var z := y[|x| + 1..];
      assert y == x + ['/'] + z;
      SplitAtSeparator(x, z, '/');
    }
    var a, c := Split(x, '/'), Split(y, '/');
    if a < c {
      var b := c[|a|..];
      assert c == a + b;
      JoinOfConcat(a, b);
      JoinOfSplit(x, '/');
      JoinOfSplit(y, '/');
      assert y == x + "/" + Join(b, '/');
    }
  }

  lemma {:induction false} LastPiece(x: string)
    requires x != ""
    ensures var pieces := Split(x, '/'); EndsWithSlash(x) <==> pieces[|pieces| - 1] == ""
  {
    var rest := Split(x[1..], '/');
    if |x| > 1 {
      LastPiece(x[1..]);
      assert EndsWithSlash(x[1..]) <==> EndsWithSlash(x);
      if |rest| == 1 {
        JoinOfSplit(x[1..], '/');
        assert rest[0] == x[1..];
      }
    }
    LastOfAttach(x[0], rest);
  }

  lemma LastOfAttach(c: char, pieces: seq<string>)
    requires |pieces| > 0
    ensures var more := Attach(c, pieces, '/');
      more[|more| - 1] == if |pieces| == 1 && c != '/' then [c] + pieces[0] else pieces[|pieces| - 1]
  {
  }

  /** A valid reference never ends in a slash. */
  lemma ReferenceEndsInName(ref: SecretRef)
    requires ref.Valid()
    ensures !EndsWithSlash(ref.Text())
  {
    var id := ref.id;
    assert id != "" && ref.Text()[|ref.Text()| - 1] == id[|id| - 1];
    if ref.backend.File? {
      LastPiece(id);
      var pieces := Split(id, '/');
      var last := pieces[|pieces| - 1];
      assert IsFileSegment(last);
      assert Split(last, '-')[0] in Split(last, '-');
    } else {
      assert id[|id| - 1] in id;
    }
  }

  /** The text comparison is the segment comparison, for every prefix and every valid reference. */
  lemma CoveringIsSegmentwise(prefix: string, ref: SecretRef)
    requires ref.Valid()
    ensures CoversByText(prefix, ref.Text()) <==> CoversBySegments(prefix, ref.Text())
  {
    var text := ref.Text();
    ReferenceEndsInName(ref);
    if EndsWithSlash(prefix) {
      var stem := prefix[..|prefix| - 1];
      assert stem + "/" == prefix;
      BeneathIsProperPrefix(stem, text);
    } else {
      BeneathIsProperPrefix(prefix, text);
      JoinOfSplit(prefix, '/');
      JoinOfSplit(text, '/');
      var a, b := Split(prefix, '/'), Split(text, '/');
      assert a <= b <==> a < b || a == b;
    }
  }

  /** Alignment: a prefix never covers a sibling whose name merely starts with the same letters. */
  lemma NoSiblingCovered(prefix: string, suffix: string, ref: SecretRef)
    requires ref.Valid() && ref.Text() == prefix + suffix
    requires !EndsWithSlash(prefix) && suffix != "" && suffix[0] != '/'
    ensures !CoversByText(prefix, ref.Text())
  {
    assert ref.Text()[|prefix|] == suffix[0];
    assert (prefix + "/")[|prefix|] == '/';
    assert prefix != ref.Text();
  }
}
