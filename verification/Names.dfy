/** `server/internal/booking/domain/name.go`: trimming and validation of guest names. */
module Names {
  import opened Common
  import opened BookingSpec

  const MAX_NAME_LENGTH := 50

  datatype NameError = ErrInvalidName

  /** The white space `strings.TrimSpace` removes. */
  predicate IsSpace(c: char) {
    || '\t' <= c <= '\r' || c == ' ' || c == '\U{85}' || c == '\U{A0}' || c == '\U{1680}'
    || '\U{2000}' <= c <= '\U{200A}' || c == '\U{2028}' || c == '\U{2029}' || c == '\U{202F}'
    || c == '\U{205F}' || c == '\U{3000}'
  }

  function TrimLeft(s: string): string {
    if s != "" && IsSpace(s[0]) then TrimLeft(s[1..]) else s
  }

  function TrimRight(s: string): string {
    if s != "" && IsSpace(s[|s| - 1]) then TrimRight(s[..|s| - 1]) else s
  }

  function TrimSpace(s: string): string {
    TrimRight(TrimLeft(s))
  }

  predicate Trimmed(s: string) {
    s == "" || (!IsSpace(s[0]) && !IsSpace(s[|s| - 1]))
  }

  predicate ValidPart(s: string) {
    1 <= |s| <= MAX_NAME_LENGTH
  }

  function NewName(first: string, last: string): Result<Name, NameError> {
    var f, l := TrimSpace(first), TrimSpace(last);
    if !ValidPart(f) || !ValidPart(l) then Err(ErrInvalidName) else Ok(Name(f, l))
  }

  predicate ValidName(n: Name) {
    Trimmed(n.firstName) && Trimmed(n.lastName) && ValidPart(n.firstName) && ValidPart(n.lastName)
  }

  lemma {:induction false} TrimLeftDropsSpace(s: string)
    ensures var t := TrimLeft(s); t == "" || !IsSpace(t[0])
  {
    if s != "" && IsSpace(s[0]) { TrimLeftDropsSpace(s[1..]); }
  }

  lemma {:induction false} TrimRightDropsSpace(s: string)
    ensures var t := TrimRight(s); t <= s && (t == "" || !IsSpace(t[|t| - 1]))
  {
    if s != "" && IsSpace(s[|s| - 1]) { TrimRightDropsSpace(s[..|s| - 1]); }
  }

  /** Trimming yields a trimmed text and leaves a trimmed text alone, so trimming twice is trimming once. */
  lemma TrimSpaceIsIdempotent(s: string)
    ensures Trimmed(TrimSpace(s))
    ensures Trimmed(s) ==> TrimSpace(s) == s
  {
    TrimLeftDropsSpace(s);
    TrimRightDropsSpace(TrimLeft(s));
  }

  /** The validator returns a name unchanged exactly when it is trimmed and of allowed length. */
  lemma UnchangedMeansValid(n: Name)
    ensures ValidName(n) <==> NewName(n.firstName, n.lastName) == Ok(n)
  {
    TrimSpaceIsIdempotent(n.firstName);
    TrimSpaceIsIdempotent(n.lastName);
  }

  /** The validator used when a guest is loaded accepts every name it ever produced, unchanged. */
  lemma NewNameAcceptsItsOwnOutput(first: string, last: string)
    ensures var r := NewName(first, last);
            r.Ok? ==> ValidName(r.value) && NewName(r.value.firstName, r.value.lastName) == r
  {
    TrimSpaceIsIdempotent(first);
    TrimSpaceIsIdempotent(last);
    TrimSpaceIsIdempotent(TrimSpace(first));
    TrimSpaceIsIdempotent(TrimSpace(last));
  }

  // ---- what trimming does to any text ----

  /** The white space of `unicode.IsSpace`, by code point. */
  ghost predicate IsWhite(c: char) {
    var n := c as int;
    || 9 <= n <= 13 || 0x2000 <= n <= 0x200A
    || n in {0x20, 0x85, 0xA0, 0x1680, 0x2028, 0x2029, 0x202F, 0x205F, 0x3000}
  }

  lemma SpaceIsWhite()
    ensures forall c :: IsSpace(c) <==> IsWhite(c)
  {
  }

  /** Everything of s outside i..j is white space, and neither end of s[i..j] is. */
  ghost predicate CoreAt(s: string, i: int, j: int) {
    && 0 <= i <= j <= |s|
    && (forall k :: 0 <= k < i ==> IsWhite(s[k])) && (forall k :: j <= k < |s| ==> IsWhite(s[k]))
    && (i < j ==> !IsWhite(s[i]) && !IsWhite(s[j - 1]))
  }

  /** t is s without the white space around it: a contiguous part, all that is cut off is white, and no end of t is. */
  ghost predicate IsCoreOf(t: string, s: string) {
    exists i, j :: CoreAt(s, i, j) && t == s[i..j]
  }

  lemma {:induction false} TrimLeftCuts(s: string) returns (i: nat)
    ensures i <= |s| && TrimLeft(s) == s[i..] && forall k :: 0 <= k < i ==> IsSpace(s[k])
  {
    i := 0;
    if s != "" && IsSpace(s[0]) {
      var n := TrimLeftCuts(s[1..]);
      i := n + 1;
    }
  }

  lemma {:induction false} TrimRightCuts(s: string) returns (j: nat)
    ensures j <= |s| && TrimRight(s) == s[..j] && forall k :: j <= k < |s| ==> IsSpace(s[k])
  {
    j := |s|;
    if s != "" && IsSpace(s[|s| - 1]) {
      j := TrimRightCuts(s[..|s| - 1]);
    }
  }

  lemma TrimSpaceIsTheCore(s: string)
    ensures IsCoreOf(TrimSpace(s), s)
  {
    var i := TrimLeftCuts(s);
    var n := TrimRightCuts(TrimLeft(s));
    TrimSpaceIsIdempotent(s);
    hide TrimLeft, TrimRight, IsSpace;
    SliceOfSlice(s, i, n);
    PartIsCore(s, i, n);
  }

  lemma SliceOfSlice(s: string, i: nat, n: nat)
    requires i + n <= |s|
    ensures s[i..][..n] == s[i..i + n]
  {
  }

  lemma PartIsCore(s: string, i: nat, n: nat)
    requires i + n <= |s| && Trimmed(s[i..i + n])
    requires forall k :: 0 <= k < i ==> IsSpace(s[k])
    requires forall k :: n <= k < |s[i..]| ==> IsSpace(s[i..][k])
    ensures IsCoreOf(s[i..i + n], s)
  {
    SpaceIsWhite();
    hide IsSpace, IsWhite;
    forall k | i + n <= k < |s| ensures IsWhite(s[k]) {
      assert s[i..][k - i] == s[k];
    }
    assert CoreAt(s, i, i + n);
  }

  lemma CoreIsUnique(t: string, u: string, s: string)
    requires IsCoreOf(t, s) && IsCoreOf(u, s)
    ensures t == u
  {
    hide IsWhite;
    var i, j :| CoreAt(s, i, j) && t == s[i..j];
    var i', j' :| CoreAt(s, i', j') && u == s[i'..j'];
    if i < j {
      assert i' <= i && j <= j';
    }
    if i' < j' {
      assert i <= i' && j' <= j;
    }
  }

  /** NewName accepts exactly when both cores have 1 to 50 characters, and returns them as first and last name. */
  lemma NewNameIsExact(first: string, last: string, f: string, l: string)
    requires IsCoreOf(f, first) && IsCoreOf(l, last)
    ensures NewName(first, last) == if 1 <= |f| <= 50 && 1 <= |l| <= 50 then Ok(Name(f, l)) else Err(ErrInvalidName)
  {
    TrimSpaceIsTheCore(first);
    TrimSpaceIsTheCore(last);
    CoreIsUnique(f, TrimSpace(first), first);
    CoreIsUnique(l, TrimSpace(last), last);
  }
}
