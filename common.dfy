/** Values, string helpers and sequence helpers shared by every page of the site. */
module Common {

  datatype Option<+T> = None | Some(value: T)

  datatype Result<+T, +E> = Success(value: T) | Failure(error: E)

  /** A browser `File` chosen in a file input; only its name is observable here. */
  datatype File = File(name: string)

  /** JavaScript truthiness of an optional string: a missing value and "" are falsy. */
  predicate Truthy(o: Option<string>) {
    o.Some? && o.value != ""
  }

  /** A product document of the "products" collection (shared by the catalogue, the
      quote cart and the brand showcase). Fields a document may lack are optional. */
  datatype Product = Product(
    id: string,
    name: Option<string>,
    brands: Option<seq<string>>,
    sku: Option<string>,
    mainImage: Option<string>)

  // ---------------------------------------------------------------------------
  // External services: what they answer is an input of the model, what is asked
  // of them is recorded in an event log.
  // ---------------------------------------------------------------------------

  /** What the media host answers to one upload request. */
  datatype HostReply =
    | Uploaded(secureUrl: string)   // 2xx response whose body carries secure_url
    | Rejected(message: string)     // non-ok response; `message` is error.message of its body
    | Unreachable                   // fetch itself threw

  /** What the document database answers to one write (addDoc, updateDoc, deleteDoc). */
  datatype WriteReply = Written | WriteFailed(message: string)

  /** One externally visible effect of a page, in the order the page causes it.
      R is the shape of the records the page writes. */
  datatype Event<R> =
    | Upload(file: File)
    | Add(collection: string, record: R)
    | Update(collection: string, id: string, record: R)
    | Delete(collection: string, id: string)
    | Get(collection: string, id: string)
    | Alert(message: string)
    | Navigate(path: string)
    | Timer(delayMs: nat)

  predicate IsWrite<R>(e: Event<R>) {
    e.Add? || e.Update? || e.Delete?
  }

  /** `confirm(...) && deleteDoc(doc(db, collection, id))`: one delete of that document
      when the dialog is confirmed, nothing otherwise. */
  function ConfirmedDelete<R>(collection: string, id: string, confirmed: bool): (r: seq<Event<R>>)
    ensures |r| <= 1
    ensures r != [] <==> confirmed
    ensures forall e :: e in r ==> e == Delete(collection, id)
  {
    if confirmed then [Delete(collection, id)] else []
  }

  /** No event of `events` writes to the database. */
  predicate NoWrites<R>(events: seq<Event<R>>) {
    forall i :: 0 <= i < |events| ==> !IsWrite(events[i])
  }

  /** No event of `events` is an upload. */
  predicate NoUploads<R>(events: seq<Event<R>>) {
    forall i :: 0 <= i < |events| ==> !events[i].Upload?
  }

  /** Concatenating two logs without writes gives a log without writes. */
  lemma NoWritesAppend<R>(a: seq<Event<R>>, b: seq<Event<R>>)
    requires NoWrites(a) && NoWrites(b)
    ensures NoWrites(a + b)
  {
    forall i | 0 <= i < |a + b| ensures !IsWrite((a + b)[i]) {
      if i >= |a| {
        assert (a + b)[i] == b[i - |a|];
      }
    }
  }

  /** One upload event per file, in order. */
  function UploadEvents<R>(files: seq<File>): (r: seq<Event<R>>)
    ensures |r| == |files|
    ensures forall i :: 0 <= i < |r| ==> r[i] == Upload(files[i])
    ensures NoWrites(r)
  {
    seq(|files|, i requires 0 <= i < |files| => Upload(files[i]))
  }

  /** A list screen fed by a live query: each snapshot replaces the whole list. */
  datatype LiveView<T> = LiveView(items: seq<T>, loading: bool)

  function Subscribed<T>(): (v: LiveView<T>)
    ensures v.items == [] && v.loading
  {
    LiveView([], true)
  }

  /** A pushed snapshot replaces the list wholesale and ends the loading state. */
  function OnSnapshot<T>(v: LiveView<T>, docs: seq<T>): (r: LiveView<T>)
    ensures r.items == docs && !r.loading
  {
    LiveView(docs, false)
  }

  // ---------------------------------------------------------------------------
  // Strings
  // ---------------------------------------------------------------------------

  /** ASCII case folding; other characters are left as they are. */
  function LowerChar(c: char): char {
    if 'A' <= c <= 'Z' then (c as int - 'A' as int + 'a' as int) as char else c
  }

  function Lower(s: string): (r: string)
    ensures |r| == |s|
  {
    seq(|s|, i requires 0 <= i < |s| => LowerChar(s[i]))
  }

  predicate StartsWith(s: string, t: string) {
    |t| <= |s| && s[..|t|] == t
  }

  /** `t` occurs in `s` starting at position i. */
  predicate OccursAt(s: string, t: string, i: nat) {
    i + |t| <= |s| && s[i..i + |t|] == t
  }

  /** String.prototype.includes: `s` contains `t` somewhere. */
  predicate Includes(s: string, t: string)
    decreases |s|
  {
    StartsWith(s, t) || (s != [] && Includes(s[1..], t))
  }

  /** Includes agrees with its positional reading. */
  lemma {:induction false} IncludesIffOccurs(s: string, t: string)
    ensures Includes(s, t) <==> exists i: nat :: OccursAt(s, t, i)
  {
    if StartsWith(s, t) {
      assert s[0..0 + |t|] == s[..|t|];
      assert OccursAt(s, t, 0);
    }
    if s == [] {
      if exists i: nat :: OccursAt(s, t, i) {
        var i: nat :| OccursAt(s, t, i);
        assert t == [];
      }
    } else {
      IncludesIffOccurs(s[1..], t);
      if Includes(s[1..], t) {
        var i: nat :| OccursAt(s[1..], t, i);
        assert s[1..][i..i + |t|] == s[i + 1..i + 1 + |t|];
        assert OccursAt(s, t, i + 1);
      }
      if exists i: nat :: OccursAt(s, t, i) {
        var i: nat :| OccursAt(s, t, i);
        if i == 0 {
          assert s[..|t|] == s[i..i + |t|];
          assert StartsWith(s, t);
        } else {
          assert s[1..][i - 1..i - 1 + |t|] == s[i..i + |t|];
          assert OccursAt(s[1..], t, i - 1);
          assert Includes(s[1..], t);
        }
      }
    }
  }

  /** Every string includes the empty string. */
  lemma IncludesEmpty(s: string)
    ensures Includes(s, "")
  {
    assert StartsWith(s, "");
  }

  /** How a template literal renders an optional string: a missing value is written
      as "undefined". */
  function JsText(o: Option<string>): (r: string)
    ensures o.Some? ==> r == o.value
    ensures o.None? ==> r == "undefined"
  {
    if o.Some? then o.value else "undefined"
  }

  /** `x?.toLowerCase().includes(term.toLowerCase())`: a missing value never matches. */
  predicate ContainsIgnoringCase(o: Option<string>, term: string) {
    o.Some? && Includes(Lower(o.value), Lower(term))
  }

  /** The empty term matches exactly the values that are present. */
  lemma ContainsEmptyIffPresent(o: Option<string>)
    ensures ContainsIgnoringCase(o, "") <==> o.Some?
  {
    if o.Some? {
      IncludesEmpty(Lower(o.value));
    }
  }

  /** The characters String.prototype.trim removes (white space and line terminators). */
  predicate IsJsWhitespace(c: char) {
    || c == ' ' || c == '\t' || c == '\n' || c == '\r'
    || c == '\U{000B}' || c == '\U{000C}' || c == '\U{00A0}' || c == '\U{FEFF}'
    || c == '\U{1680}' || ('\U{2000}' <= c <= '\U{200A}')
    || c == '\U{2028}' || c == '\U{2029}' || c == '\U{202F}' || c == '\U{205F}' || c == '\U{3000}'
  }

  predicate IsBlank(s: string) {
    forall i :: 0 <= i < |s| ==> IsJsWhitespace(s[i])
  }

  function TrimStart(s: string): string {
    if s != [] && IsJsWhitespace(s[0]) then TrimStart(s[1..]) else s
  }

  function TrimEnd(s: string): string {
    if s != [] && IsJsWhitespace(s[|s| - 1]) then TrimEnd(s[..|s| - 1]) else s
  }

  /** String.prototype.trim. */
  function Trim(s: string): string {
    TrimEnd(TrimStart(s))
  }

  lemma {:induction false} TrimStartShape(s: string)
    ensures TrimStart(s) == [] <==> IsBlank(s)
    ensures TrimStart(s) != [] ==> !IsJsWhitespace(TrimStart(s)[0])
  {
    if s != [] && IsJsWhitespace(s[0]) {
      TrimStartShape(s[1..]);
      assert IsBlank(s[1..]) ==> IsBlank(s) by {
        if IsBlank(s[1..]) {
          forall i | 1 <= i < |s| ensures IsJsWhitespace(s[i]) {
            assert s[i] == s[1..][i - 1];
          }
        }
      }
    }
  }

  lemma {:induction false} TrimEndEmpty(s: string)
    ensures TrimEnd(s) == [] <==> IsBlank(s)
  {
    if s != [] && IsJsWhitespace(s[|s| - 1]) {
      TrimEndEmpty(s[..|s| - 1]);
      assert IsBlank(s[..|s| - 1]) ==> IsBlank(s) by {
        if IsBlank(s[..|s| - 1]) {
          forall i | 0 <= i < |s| - 1 ensures IsJsWhitespace(s[i]) {
            assert s[i] == s[..|s| - 1][i];
          }
        }
      }
    }
  }

  /** `s.trim() === ""` holds exactly for strings made only of white space. */
  lemma TrimEmptyIffBlank(s: string)
    ensures Trim(s) == "" <==> IsBlank(s)
  {
    TrimStartShape(s);
    TrimEndEmpty(TrimStart(s));
    var t := TrimStart(s);
    if t != [] {
      assert !IsBlank(t) by { assert !IsJsWhitespace(t[0]); }
    }
  }

  // ---------------------------------------------------------------------------
  // Sequences
  // ---------------------------------------------------------------------------

  /** `a` is obtained from `b` by deleting elements, keeping the order of the rest. */
  predicate IsSubseq<T(==,!new)>(a: seq<T>, b: seq<T>)
    decreases |b|
  {
    || a == []
    || (b != [] &&
        (|| (a[|a| - 1] == b[|b| - 1] && IsSubseq(a[..|a| - 1], b[..|b| - 1]))
         || IsSubseq(a, b[..|b| - 1])))
  }

  /** Array.prototype.filter: the elements of `s` satisfying `p`, in their order. */
  function Filter<T(==,!new)>(s: seq<T>, p: T -> bool): (r: seq<T>)
    ensures |r| <= |s|
    ensures IsSubseq(r, s)
    ensures forall x :: x in r <==> x in s && p(x)
  {
    if s == [] then []
    else
      var init := Filter(s[..|s| - 1], p);
      assert s == s[..|s| - 1] + [s[|s| - 1]];
      if p(s[|s| - 1]) then init + [s[|s| - 1]] else init
  }

  /** Filtering keeps every copy of a passing element and no copy of a failing one. */
  lemma {:induction false} FilterCount<T(!new)>(s: seq<T>, p: T -> bool)
    ensures forall x :: multiset(Filter(s, p))[x] == if p(x) then multiset(s)[x] else 0
  {
    if s != [] {
      var init := s[..|s| - 1];
      FilterCount(init, p);
      assert s == init + [s[|s| - 1]];
      assert multiset(s) == multiset(init) + multiset{s[|s| - 1]};
    }
  }

  /** Filtering distributes over concatenation. */
  lemma {:induction false} FilterConcat<T(!new)>(a: seq<T>, b: seq<T>, p: T -> bool)
    decreases |b|
    ensures Filter(a + b, p) == Filter(a, p) + Filter(b, p)
  {
    if b != [] {
      var n := |b| - 1;
      FilterConcat(a, b[..n], p);
      assert (a + b)[..|a + b| - 1] == a + b[..n];
      assert (a + b)[|a + b| - 1] == b[n];
      var tail := if p(b[n]) then [b[n]] else [];
      assert Filter(b, p) == Filter(b[..n], p) + tail;
      assert Filter(a + b, p) == Filter(a + b[..n], p) + tail;
    } else {
      assert a + b == a;
    }
  }

  /** Filtering keeps everything when every element passes. */
  lemma {:induction false} FilterAll<T(!new)>(s: seq<T>, p: T -> bool)
    requires forall x :: x in s ==> p(x)
    ensures Filter(s, p) == s
  {
    if s != [] {
      FilterAll(s[..|s| - 1], p);
      assert s == s[..|s| - 1] + [s[|s| - 1]];
    }
  }

  /** Filtering removes everything when no element passes. */
  lemma {:induction false} FilterNone<T(!new)>(s: seq<T>, p: T -> bool)
    requires forall x :: x in s ==> !p(x)
    ensures Filter(s, p) == []
  {
    if s != [] {
      FilterNone(s[..|s| - 1], p);
    }
  }

  predicate NoDuplicates<T(==,!new)>(s: seq<T>) {
    forall i, j :: 0 <= i < j < |s| ==> s[i] != s[j]
  }

  /** The position of the first occurrence of `x` in `s`. */
  function FirstIndex<T(==)>(s: seq<T>, x: T): (k: nat)
    requires x in s
    ensures k < |s| && s[k] == x && x !in s[..k]
    decreases |s|
  {
    var init := s[..|s| - 1];
    if x in init then
      var k := FirstIndex(init, x);
      assert s[..k] == init[..k];
      k
    else
      assert s[..|s| - 1] == init;
      |s| - 1
  }

  /** `Array.from(new Set(s))`: each value once, in the order of its first appearance. */
  function Distinct<T(==,!new)>(s: seq<T>): (r: seq<T>)
    ensures forall x :: x in r <==> x in s
    ensures NoDuplicates(r)
    ensures IsSubseq(r, s)
    ensures forall i, j {:trigger FirstIndex(s, r[i]), FirstIndex(s, r[j])} ::
      0 <= i < j < |r| ==> FirstIndex(s, r[i]) < FirstIndex(s, r[j])
  {
    if s == [] then []
    else
      var init := Distinct(s[..|s| - 1]);
      var last := s[|s| - 1];
      assert s == s[..|s| - 1] + [last];
      assert forall x :: x in s[..|s| - 1] ==> FirstIndex(s, x) == FirstIndex(s[..|s| - 1], x);
      if last in init then init else init + [last]
  }

  /** A value is kept at its first position: it enters the result exactly when the
      prefix before it does not contain it. */
  lemma {:induction false} DistinctFirstAppearance<T(!new)>(s: seq<T>, x: T)
    requires x in s
    ensures Distinct(s) == Distinct(s + [x])
  {
    var t := s + [x];
    assert t[..|t| - 1] == s;
  }
}
