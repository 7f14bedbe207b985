/**
  A wildcard push: the subscribers of a service matching a glob, found through the subscriber
  index or, where the index has not been built, by scanning the keyspace (db/pushredisdb.go).
 */
module Wildcards {
  import opened Basics
  import opened Store

  // ---------- Redis globs ----------

  predicate Between(c: char, a: char, b: char) {
    (a <= c <= b) || (b <= c <= a)
  }

  /** The body of a character class: whether it holds c, and the pattern after it. One never closed takes the whole pattern. */
  function Class(p: string, c: char, hit: bool): (r: (bool, string))
    ensures |r.1| <= |p|
  {
    if p == [] then (hit, [])
    else if |p| >= 2 && p[0] == '\\' then Class(p[2..], c, hit || p[1] == c)
    else if p[0] == ']' then (hit, p[1..])
    else if |p| >= 3 && p[1] == '-' then Class(p[3..], c, hit || Between(c, p[0], p[2]))
    else Class(p[1..], c, hit || p[0] == c)
  }

  function ClassMatch(p: string, c: char): (r: (bool, string))
    ensures |r.1| <= |p|
  {
    if p != [] && p[0] == '^' then
      var (hit, rest) := Class(p[1..], c, false);
      (!hit, rest)
    else Class(p, c, false)
  }

  /** What MATCH accepts. */
  predicate Glob(p: string, s: string)
    decreases |p| + |s|
  {
    if p == [] then s == []
    else if p[0] == '*' then Glob(p[1..], s) || (s != [] && Glob(p, s[1..]))
    else if s == [] then false
    else if p[0] == '?' then Glob(p[1..], s[1..])
    else if p[0] == '[' then
      var (hit, rest) := ClassMatch(p[1..], s[0]);
      hit && Glob(rest, s[1..])
    else if p[0] == '\\' && |p| >= 2 then p[1] == s[0] && Glob(p[2..], s[1..])
    else p[0] == s[0] && Glob(p[1..], s[1..])
  }

  // ---------- What a glob means ----------

  /** One part of a glob: any text, any character, a character in or out of some ranges, a given character. */
  datatype Piece = Any | One | Within(negated: bool, ranges: seq<(char, char)>) | Exactly(c: char)

  function ClassRanges(p: string): (r: (seq<(char, char)>, string))
    ensures |r.1| <= |p|
  {
    if p == [] then ([], [])
    else if p[0] == ']' then ([], p[1..]) else
    var (first, rest) :=
      if |p| >= 2 && p[0] == '\\' then ((p[1], p[1]), p[2..])
      else if |p| >= 3 && p[1] == '-' then ((p[0], p[2]), p[3..])
      else ((p[0], p[0]), p[1..]);
    var (more, after) := ClassRanges(rest);
    ([first] + more, after)
  }

  predicate InSome(ranges: seq<(char, char)>, c: char) {
    exists i :: 0 <= i < |ranges| && Between(c, ranges[i].0, ranges[i].1)
  }

  predicate Negated(p: string) {
    p != [] && p[0] == '^'
  }

  /** The parts a glob is made of. */
  function Pieces(p: string): seq<Piece>
    decreases |p|
  {
    if p == [] then []
    else if p[0] == '*' then [Any] + Pieces(p[1..])
    else if p[0] == '?' then [One] + Pieces(p[1..])
    else if p[0] == '[' then
      var (ranges, rest) := ClassRanges(if Negated(p[1..]) then p[2..] else p[1..]);
      [Within(Negated(p[1..]), ranges)] + Pieces(rest)
    else if p[0] == '\\' && |p| >= 2 then [Exactly(p[1])] + Pieces(p[2..])
    else [Exactly(p[0])] + Pieces(p[1..])
  }

  /** Whether a part accepts a piece of the text. */
  predicate Takes(piece: Piece, s: string) {
    match piece
    case Any => true
    case One => |s| == 1
    case Within(negated, ranges) => |s| == 1 && InSome(ranges, s[0]) != negated
    case Exactly(c) => s == [c]
  }

  function Joined(parts: seq<string>): string {
    if parts == [] then [] else parts[0] + Joined(parts[1..])
  }

  /** The text is cut into as many pieces as the glob has parts, and each part accepts its own. */
  ghost predicate Cuts(pieces: seq<Piece>, s: string, parts: seq<string>) {
    && |parts| == |pieces| && Joined(parts) == s
    && forall i :: 0 <= i < |pieces| ==> Takes(pieces[i], parts[i])
  }

  ghost predicate Accepts(pieces: seq<Piece>, s: string) {
    exists parts :: Cuts(pieces, s, parts)
  }

  lemma {:induction false} ClassMeaning(p: string, c: char, hit: bool)
    ensures Class(p, c, hit) == (hit || InSome(ClassRanges(p).0, c), ClassRanges(p).1)
    decreases |p|
  {
    if p != [] && p[0] != ']' {
      var (first, rest) :=
        if |p| >= 2 && p[0] == '\\' then ((p[1], p[1]), p[2..])
        else if |p| >= 3 && p[1] == '-' then ((p[0], p[2]), p[3..])
        else ((p[0], p[0]), p[1..]);
      var now := hit || Between(c, first.0, first.1);
      ClassMeaning(rest, c, now);
      var more := ClassRanges(rest).0;
      var ranges := [first] + more;
      assert ClassRanges(p) == (ranges, ClassRanges(rest).1);
      assert InSome(ranges, c) <==> Between(c, first.0, first.1) || InSome(more, c) by {
        assert ranges[0] == first;
        assert forall i :: 0 <= i < |more| ==> ranges[i + 1] == more[i];
      }
    }
  }

  /** Accepting the first character with a one-character part leaves the rest to the rest. */
  lemma OneCharacter(piece: Piece, pieces: seq<Piece>, s: string)
    requires !piece.Any?
    ensures Accepts([piece] + pieces, s) <==> s != [] && Takes(piece, s[..1]) && Accepts(pieces, s[1..])
  {
    if parts :| Cuts([piece] + pieces, s, parts) {
      var first := parts[0];
      assert ([piece] + pieces)[0] == piece && Takes(piece, first) && |first| == 1;
      assert s == first + Joined(parts[1..]) && s[..1] == first && s[1..] == Joined(parts[1..]);
      assert forall i :: 0 <= i < |pieces| ==> pieces[i] == ([piece] + pieces)[i + 1] && parts[1..][i] == parts[i + 1];
      assert Cuts(pieces, s[1..], parts[1..]);
    }
    if s != [] && Takes(piece, s[..1]) {
      if rest :| Cuts(pieces, s[1..], rest) {
        var parts := [s[..1]] + rest;
        assert parts[1..] == rest && s == s[..1] + s[1..];
        assert Cuts([piece] + pieces, s, parts);
      }
    }
  }

  /** Any text is none, or one character and any text. */
  lemma AnyText(pieces: seq<Piece>, s: string)
    ensures Accepts([Any] + pieces, s) <==> Accepts(pieces, s) || (s != [] && Accepts([Any] + pieces, s[1..]))
  {
    if parts :| Cuts([Any] + pieces, s, parts) {
      LessText(pieces, s, parts);
    }
    if parts :| Cuts(pieces, s, parts) {
      NoText(pieces, s, parts);
    }
    if s != [] {
      if parts :| Cuts([Any] + pieces, s[1..], parts) {
        MoreText(pieces, s, parts);
      }
    }
  }

  lemma LessText(pieces: seq<Piece>, s: string, parts: seq<string>)
    requires Cuts([Any] + pieces, s, parts)
    ensures Accepts(pieces, s) || (s != [] && Accepts([Any] + pieces, s[1..]))
  {
    var all, rest := [Any] + pieces, parts[1..];
    assert s == parts[0] + Joined(rest);
    if parts[0] == [] {
      assert forall i :: 0 <= i < |pieces| ==> pieces[i] == all[i + 1] && rest[i] == parts[i + 1];
      assert Cuts(pieces, s, rest);
    } else {
      var less := [parts[0][1..]] + rest;
      assert less[1..] == rest && s[1..] == parts[0][1..] + Joined(rest);
      assert Cuts(all, s[1..], less);
    }
  }

  lemma NoText(pieces: seq<Piece>, s: string, parts: seq<string>)
    requires Cuts(pieces, s, parts)
    ensures Accepts([Any] + pieces, s)
  {
    var more := [""] + parts;
    assert more[1..] == parts;
    assert Cuts([Any] + pieces, s, more);
  }

  lemma MoreText(pieces: seq<Piece>, s: string, parts: seq<string>)
    requires s != [] && Cuts([Any] + pieces, s[1..], parts)
    ensures Accepts([Any] + pieces, s)
  {
    var more := [s[..1] + parts[0]] + parts[1..];
    assert more[1..] == parts[1..];
    assert Joined(more) == s[..1] + (parts[0] + Joined(parts[1..])) == s;
    assert Cuts([Any] + pieces, s, more);
  }

  /** A glob accepts exactly the texts that can be cut into pieces its parts accept. */
  lemma {:induction false} GlobMeaning(p: string, s: string)
    ensures Glob(p, s) <==> Accepts(Pieces(p), s)
    decreases |p| + |s|
  {
    if p == [] {
      if s == [] {
        assert Cuts(Pieces(p), s, []);
      }
    } else if p[0] == '*' {
      assert Pieces(p) == [Any] + Pieces(p[1..]);
      AnyText(Pieces(p[1..]), s);
      GlobMeaning(p[1..], s);
      if s != [] {
        GlobMeaning(p, s[1..]);
      }
    } else {
      var rest := Rest(p);
      OneCharacter(Pieces(p)[0], Pieces(rest), s);
      if s != [] {
        GlobMeaning(rest, s[1..]);
        if p[0] == '[' {
          ClassMeaning(if Negated(p[1..]) then p[2..] else p[1..], s[0], false);
          assert Negated(p[1..]) ==> p[1..][1..] == p[2..];
        }
      }
    }
  }

  /** The glob after its first part. */
  function Rest(p: string): (rest: string)
    requires p != [] && p[0] != '*'
    ensures |rest| < |p| && Pieces(p) == [Pieces(p)[0]] + Pieces(rest)
  {
    if p[0] == '[' then ClassRanges(if Negated(p[1..]) then p[2..] else p[1..]).1
    else if p[0] == '\\' && |p| >= 2 then p[2..]
    else p[1..]
  }

  // ---------- Literal globs ----------

  predicate Literal(c: char) {
    c !in {'*', '?', '[', '\\'}
  }

  predicate AllLiteral(s: string) {
    forall i :: 0 <= i < |s| ==> Literal(s[i])
  }

  lemma {:induction false} LiteralPrefix(lit: string, p: string, s: string)
    requires AllLiteral(lit)
    ensures Glob(lit + p, s) <==> lit <= s && Glob(p, s[|lit|..])
  {
    if lit == [] {
      assert lit + p == p;
    } else {
      assert Literal(lit[0]) && (lit + p)[0] == lit[0] && (lit + p)[1..] == lit[1..] + p;
      if s != [] {
        LiteralPrefix(lit[1..], p, s[1..]);
        assert lit <= s <==> lit[0] == s[0] && lit[1..] <= s[1..];
        if lit <= s {
          assert s[1..][|lit| - 1..] == s[|lit|..];
        }
      }
    }
  }

  // ---------- Keys ----------

  const DEVICE_SETS := "srv.sub-2-dp:"

  function DeviceSetKey(srv: string, sub: string): string {
    DEVICE_SETS + srv + ":" + sub
  }

  predicate NoColon(s: string) {
    ':' !in s
  }

  /** A service name without a colon can be read back off a device set key. */
  lemma KeyDetermines(a: string, x: string, b: string, y: string)
    requires NoColon(a) && NoColon(b)
    ensures DeviceSetKey(a, x) == DeviceSetKey(b, y) <==> a == b && x == y
  {
    var s, t := a + ":" + x, b + ":" + y;
    assert DeviceSetKey(a, x)[|DEVICE_SETS|..] == s && DeviceSetKey(b, y)[|DEVICE_SETS|..] == t;
    assert s == t ==> |a| == |b| by {
      assert |b| < |s| && s[|b|] == ':' ==> |b| >= |a|;
      assert |a| < |t| && t[|a|] == ':' ==> |a| >= |b|;
      assert s[|a|] == ':' && t[|b|] == ':';
    }
    assert s[..|a|] == a && t[..|b|] == b;
    assert s[|a| + 1..] == x && t[|b| + 1..] == y;
  }

  /** A glob whose service part is literal matches exactly that service's keys, subscriber by subscriber. */
  lemma LiteralServiceMatches(srv: string, pattern: string, b: string, y: string)
    requires AllLiteral(srv) && NoColon(srv) && NoColon(b)
    ensures Glob(DeviceSetKey(srv, pattern), DeviceSetKey(b, y)) <==> b == srv && Glob(pattern, y)
  {
    var lit, key := DEVICE_SETS + srv + ":", DeviceSetKey(b, y);
    assert AllLiteral(lit);
    assert DeviceSetKey(srv, pattern) == lit + pattern;
    LiteralPrefix(lit, pattern, key);
    assert b == srv ==> key == lit + y;
    if lit <= key {
      var rest := key[|lit|..];
      assert key == lit + rest == DeviceSetKey(srv, rest);
      KeyDetermines(b, y, srv, rest);
    }
  }

  // ---------- A service name the validator admits and the scan cannot find ----------

  /** validServicePattern: the characters a service name may have. */
  predicate ServiceChar(c: char) {
    'a' <= c <= 'z' || 'A' <= c <= 'Z' || '0' <= c <= '9' || c in {'.', '_', '@', '[', ']', '^', '\\', '-'}
  }

  predicate ValidService(s: string) {
    s != [] && forall i :: 0 <= i < |s| ==> ServiceChar(s[i])
  }

  /** A class either closes inside the service part, leaving the colon and star, or swallows everything. */
  lemma {:induction false} ClassLeaves(q: string, c: char, hit: bool)
    ensures var rest := Class(q + ":*", c, hit).1;
            rest == [] || exists k :: 0 < k <= |q| && rest == q[k..] + ":*"
    decreases |q|
  {
    var p := q + ":*";
    if q == [] {
      assert p == ":*";
      assert Class("*", c, hit || ':' == c).1 == [];
    } else if q[0] == '\\' {
      assert p[0] == '\\' && |p| >= 2;
      if |q| >= 2 {
        assert p[2..] == q[2..] + ":*";
        ClassLeaves(q[2..], c, hit || p[1] == c);
        Deeper(q, 2, Class(p, c, hit).1);
      } else {
        assert p[2..] == "*";
      }
    } else if q[0] == ']' {
      assert p[1..] == q[1..] + ":*";
    } else if |p| >= 3 && p[1] == '-' {
      assert |q| >= 2;
      if |q| >= 3 {
        assert p[3..] == q[3..] + ":*";
        ClassLeaves(q[3..], c, hit || Between(c, p[0], p[2]));
        Deeper(q, 3, Class(p, c, hit).1);
      } else {
        assert p[3..] == "*";
      }
    } else {
      assert p[1..] == q[1..] + ":*";
      ClassLeaves(q[1..], c, hit || p[0] == c);
      Deeper(q, 1, Class(p, c, hit).1);
    }
  }

  lemma Deeper(q: string, n: nat, rest: string)
    requires n <= |q|
    requires rest == [] || exists k :: 0 < k <= |q[n..]| && rest == q[n..][k..] + ":*"
    ensures rest == [] || exists k :: 0 < k <= |q| && rest == q[k..] + ":*"
  {
    if rest != [] {
      var k :| 0 < k <= |q[n..]| && rest == q[n..][k..] + ":*";
      assert q[n..][k..] == q[n + k..];
    }
  }

  /** The same, with the negation a class may begin with. */
  lemma ClassMatchLeaves(q: string, c: char)
    ensures var rest := ClassMatch(q + ":*", c).1;
            rest == [] || exists k :: 0 < k <= |q| && rest == q[k..] + ":*"
  {
    if q != [] && q[0] == '^' {
      assert (q + ":*")[1..] == q[1..] + ":*";
      ClassLeaves(q[1..], c, false);
      Deeper(q, 1, ClassMatch(q + ":*", c).1);
    } else {
      ClassLeaves(q, c, false);
    }
  }

  /** A pattern with less left before its colon than the key has cannot match: each part of it takes one character. */
  lemma {:induction false} ShortPatternFails(q: string, u: string, v: string)
    requires '*' !in q && '?' !in q && NoColon(u) && |q| < |u|
    ensures !Glob(q + ":*", u + ":" + v)
    decreases |q|
  {
    var p, k := q + ":*", u + ":" + v;
    assert k[0] == u[0] && k[1..] == u[1..] + ":" + v;
    if q == [] {
      assert p[0] == ':';
    } else {
      assert p[0] == q[0] && p[1..] == q[1..] + ":*";
      if q[0] == '[' {
        ClassThenFails(q[1..], u, v);
      } else if q[0] == '\\' {
        if |q| >= 2 {
          assert p[2..] == q[2..] + ":*";
          ShortPatternFails(q[2..], u[1..], v);
        } else {
          assert p[1] == ':';
        }
      } else {
        ShortPatternFails(q[1..], u[1..], v);
      }
    }
  }

  /** The same after a class has been opened. */
  lemma {:induction false} ClassThenFails(q: string, u: string, v: string)
    requires '*' !in q && '?' !in q && NoColon(u) && |q| + 1 <= |u|
    ensures !Glob(ClassMatch(q + ":*", u[0]).1, (u + ":" + v)[1..])
    decreases |q|
  {
    var rest := ClassMatch(q + ":*", u[0]).1;
    assert (u + ":" + v)[1..] == u[1..] + ":" + v;
    ClassMatchLeaves(q, u[0]);
    if rest != [] {
      var k :| 0 < k <= |q| && rest == q[k..] + ":*";
      ShortPatternFails(q[k..], u[1..], v);
    }
  }

  /** Whether the scan for every subscriber of srv meets the key of one of them: exactly when no character of srv means something in a glob. */
  lemma ScanMeetsItsOwn(srv: string, sub: string)
    requires ValidService(srv)
    ensures Glob(DeviceSetKey(srv, "*"), DeviceSetKey(srv, sub)) <==> AllLiteral(srv)
  {
    if AllLiteral(srv) {
      LiteralServiceMatches(srv, "*", srv, sub);
      StarMatches(sub);
    } else {
      var i := FirstSpecial(srv);
      var lit, c, rest := DEVICE_SETS + srv[..i], srv[i], srv[i + 1..];
      var p, k := srv[i..] + ":*", srv[i..] + ":" + sub;
      assert AllLiteral(lit);
      assert DeviceSetKey(srv, "*") == lit + p && DeviceSetKey(srv, sub) == lit + k;
      LiteralPrefix(lit, p, lit + k);
      assert (lit + k)[|lit|..] == k;
      SpecialFails(srv[i..], sub);
    }
  }

  lemma {:induction false} StarMatches(s: string)
    ensures Glob("*", s)
  {
    if s != [] {
      StarMatches(s[1..]);
    }
  }

  lemma FirstSpecial(s: string) returns (i: nat)
    requires !AllLiteral(s)
    ensures i < |s| && !Literal(s[i]) && AllLiteral(s[..i])
  {
    i := 0;
    while Literal(s[i])
      invariant i < |s| && AllLiteral(s[..i])
      invariant exists j :: i <= j < |s| && !Literal(s[j])
      decreases |s| - i
    {
      i := i + 1;
    }
  }

  /** A name beginning with a special character fails against itself. */
  lemma SpecialFails(u: string, sub: string)
    requires u != [] && !Literal(u[0]) && forall i :: 0 <= i < |u| ==> ServiceChar(u[i])
    ensures !Glob(u + ":*", u + ":" + sub)
  {
    var p, k := u + ":*", u + ":" + sub;
    assert p[0] == u[0] == k[0] && p[1..] == u[1..] + ":*" && k[1..] == u[1..] + ":" + sub;
    if u[0] == '[' {
      ClassThenFails(u[1..], u, sub);
    } else if |u| >= 2 {
      assert p[2..] == u[2..] + ":*";
      ShortPatternFails(u[2..], u[1..], sub);
    } else {
      assert p[1] == ':';
    }
  }

  // ---------- The two ways of finding the matching subscribers ----------

  /** Every service a device set is kept for has a name without a colon, as the REST layer sees to. */
  ghost predicate Named(db: Db) {
    forall x :: x in db.devices ==> NoColon(x.service)
  }

  function TrimPrefix(s: string, prefix: string): string {
    if prefix <= s then s[|prefix|..] else s
  }

  /** What the index lists under the pattern. */
  ghost function IndexFound(db: Db, srv: string, pattern: string): set<string> {
    set s | s in Members(db.subscribers, srv) && Glob(pattern, s)
  }

  /** The device set keys the scan's pattern meets. */
  ghost function KeysMet(db: Db, srv: string, pattern: string): set<string> {
    set x | x in db.devices && Glob(DeviceSetKey(srv, pattern), DeviceSetKey(x.service, x.name)) :: DeviceSetKey(x.service, x.name)
  }

  /** The subscribers the scan reads off those keys. */
  ghost function ScanFound(db: Db, srv: string, pattern: string): set<string> {
    set key | key in KeysMet(db, srv, pattern) :: TrimPrefix(key, DeviceSetKey(srv, ""))
  }

  /** The subscribers a wildcard is for. */
  ghost function Matching(db: Db, srv: string, pattern: string): set<string> {
    set x | x in db.devices && x.service == srv && Glob(pattern, x.name) :: x.name
  }

  lemma IndexIsRight(db: Db, srv: string, pattern: string)
    requires WellFormed(db) && Agrees(db)
    ensures IndexFound(db, srv, pattern) == Matching(db, srv, pattern)
  {
    forall s ensures s in IndexFound(db, srv, pattern) <==> s in Matching(db, srv, pattern) {
      assert IndexedRight(db, Sub(srv, s));
      assert s in Matching(db, srv, pattern) <==> Sub(srv, s) in db.devices && Glob(pattern, s);
    }
  }

  /** With a literal service every key met is one of its subscribers', and the trimming recovers the name. */
  lemma KeyMetIsOwn(db: Db, srv: string, pattern: string, key: string)
    requires Named(db) && NoColon(srv) && AllLiteral(srv)
    ensures var name := TrimPrefix(key, DeviceSetKey(srv, ""));
            key in KeysMet(db, srv, pattern) <==> key == DeviceSetKey(srv, name) && Sub(srv, name) in db.devices && Glob(pattern, name)
  {
    var prefix := DeviceSetKey(srv, "");
    var name := TrimPrefix(key, prefix);
    if key in KeysMet(db, srv, pattern) {
      var x :| x in db.devices && Glob(DeviceSetKey(srv, pattern), DeviceSetKey(x.service, x.name)) && key == DeviceSetKey(x.service, x.name);
      LiteralServiceMatches(srv, pattern, x.service, x.name);
      assert key == prefix + x.name;
    }
    LiteralServiceMatches(srv, pattern, srv, name);
  }

  lemma ScanIsRight(db: Db, srv: string, pattern: string)
    requires Named(db) && NoColon(srv) && AllLiteral(srv)
    ensures ScanFound(db, srv, pattern) == Matching(db, srv, pattern)
  {
    forall s | s in ScanFound(db, srv, pattern) ensures s in Matching(db, srv, pattern) {
      var key :| key in KeysMet(db, srv, pattern) && s == TrimPrefix(key, DeviceSetKey(srv, ""));
      KeyMetIsOwn(db, srv, pattern, key);
      assert Sub(srv, s) in db.devices;
    }
    forall s | s in Matching(db, srv, pattern) ensures s in ScanFound(db, srv, pattern) {
      var key := DeviceSetKey(srv, s);
      assert Sub(srv, s) in db.devices;
      assert key == DeviceSetKey(srv, "") + s;
      assert TrimPrefix(key, DeviceSetKey(srv, "")) == s;
      KeyMetIsOwn(db, srv, pattern, key);
    }
  }

  /** Both paths answer alike on every database and every pattern. */
  ghost predicate PathsAgree(srv: string) {
    forall db, pattern :: Named(db) && WellFormed(db) && Agrees(db) ==> ScanFound(db, srv, pattern) == IndexFound(db, srv, pattern)
  }

  const EMPTY := Db(map[], map[], map[], map[], map[], true, map[], map[])

  /** The fallback answers as the index does exactly for the services whose names mean nothing in a glob. */
  lemma FallbackIsExact(srv: string)
    requires ValidService(srv)
    ensures PathsAgree(srv) <==> AllLiteral(srv)
  {
    assert NoColon(srv);
    if AllLiteral(srv) {
      forall db, pattern | Named(db) && WellFormed(db) && Agrees(db)
        ensures ScanFound(db, srv, pattern) == IndexFound(db, srv, pattern)
      {
        ScanIsRight(db, srv, pattern);
        IndexIsRight(db, srv, pattern);
      }
    } else {
      var x, dp := Sub(srv, "a"), Name("apns", srv, "a", "d");
      var db := Subscribe(EMPTY, x, dp);
      OneSubscription(x, dp);
      StarMatches("a");
      assert "a" in IndexFound(db, srv, "*");
      ScanMeetsItsOwn(srv, "a");
      assert KeysMet(db, srv, "*") == {};
    }
  }

  lemma OneSubscription(x: Sub, dp: Name)
    requires Owner(dp) == x && NoColon(x.service)
    ensures var db := Subscribe(EMPTY, x, dp); Named(db) && WellFormed(db) && Agrees(db)
  {
    var db := Subscribe(EMPTY, x, dp);
    SubscribeSpares(EMPTY, x, dp);
    assert IndexedRight(EMPTY, x);
    SubscribeKeepsRight(EMPTY, x, dp);
    forall y ensures IndexedRight(db, y) {
      if y != x {
        assert IndexedRight(EMPTY, y);
        SameForKeepsRight(EMPTY, db, y);
      }
    }
  }

  // ---------- The lookup ----------

  /** scanUniqueKeys, and the same loop in matchSubscribers: the walk without its repeats. */
  method WithoutRepeats(walk: seq<string>) returns (found: seq<string>)
    ensures Distinct(found)
    ensures forall s :: s in found <==> s in walk
  {
    var seen := {};
    found := [];
    for i := 0 to |walk|
      invariant Distinct(found)
      invariant forall s :: s in seen <==> s in found
      invariant forall s :: s in found <==> s in walk[..i]
    {
      if walk[i] !in seen {
        seen := seen + {walk[i]};
        found := found + [walk[i]];
      }
    }
  }

  /** scanMatchingSubscribers: what the scan reads off the keys, which is every match of a service whose name is no pattern. */
  method ScanMatchingSubscribers(ghost db: Db, srv: string, pattern: string, walk: seq<string>) returns (subs: seq<string>)
    requires Named(db) && NoColon(srv) && Walks(walk, KeysMet(db, srv, pattern))
    ensures forall s :: s in subs <==> s in ScanFound(db, srv, pattern)
    ensures AllLiteral(srv) ==> Distinct(subs) && forall s :: s in subs <==> s in Matching(db, srv, pattern)
  {
    var keys := WithoutRepeats(walk);
    var prefix := DeviceSetKey(srv, "");
    subs := [];
    for i := 0 to |keys|
      invariant |subs| == i
      invariant forall j :: 0 <= j < i ==> subs[j] == TrimPrefix(keys[j], prefix)
    {
      subs := subs + [TrimPrefix(keys[i], prefix)];
    }
    forall s ensures s in subs <==> s in ScanFound(db, srv, pattern) {
      if s in subs {
        var j :| 0 <= j < |subs| && subs[j] == s;
        assert keys[j] in KeysMet(db, srv, pattern);
      }
      if s in ScanFound(db, srv, pattern) {
        var key :| key in KeysMet(db, srv, pattern) && s == TrimPrefix(key, prefix);
        assert key in keys;
      }
    }
    if AllLiteral(srv) {
      TrimmedAreDistinct(db, srv, pattern, keys, subs);
      ScanIsRight(db, srv, pattern);
    }
  }

  lemma TrimmedAreDistinct(db: Db, srv: string, pattern: string, keys: seq<string>, subs: seq<string>)
    requires Named(db) && NoColon(srv) && AllLiteral(srv)
    requires Distinct(keys) && forall k :: k in keys ==> k in KeysMet(db, srv, pattern)
    requires |subs| == |keys| && forall j :: 0 <= j < |keys| ==> subs[j] == TrimPrefix(keys[j], DeviceSetKey(srv, ""))
    ensures Distinct(subs)
  {
    forall i, j | 0 <= i < j < |subs| ensures subs[i] != subs[j] {
      KeyMetIsOwn(db, srv, pattern, keys[i]);
      KeyMetIsOwn(db, srv, pattern, keys[j]);
    }
  }

  lemma DistinctConcat<T>(s: seq<T>, t: seq<T>)
    requires Distinct(s) && Distinct(t) && forall x :: x in t ==> x !in s
    ensures Distinct(s + t)
  {
    forall i, j | 0 <= i < j < |s + t| ensures (s + t)[i] != (s + t)[j] {
      assert i < |s| <= j ==> (s + t)[j] in t && (s + t)[i] in s;
    }
  }

  /** The devices of the named subscribers of srv. */
  ghost predicate DeviceOf(db: Db, srv: string, subs: set<string>, dp: Name) {
    dp.subscriber in subs && dp in Members(db.devices, Sub(srv, dp.subscriber))
  }

  /** deliveryPointsOfSubscribers: each device once, because no two subscribers share one. */
  method DeliveryPointsOfSubscribers(ghost db: Db, srv: string, subs: seq<string>, smembers: string -> seq<Name>) returns (names: seq<Name>)
    requires Owned(db)
    requires forall s :: Distinct(smembers(s)) && Walks(smembers(s), Members(db.devices, Sub(srv, s)))
    ensures forall dp :: dp in names <==> DeviceOf(db, srv, ToSet(subs), dp)
    ensures Distinct(subs) ==> Distinct(names)
  {
    names := [];
    for i := 0 to |subs|
      invariant forall dp :: dp in names <==> DeviceOf(db, srv, ToSet(subs[..i]), dp)
      invariant Distinct(subs) ==> Distinct(names)
    {
      var more := smembers(subs[i]);
      assert ToSet(subs[..i + 1]) == ToSet(subs[..i]) + {subs[i]};
      forall dp | dp in more ensures dp.subscriber == subs[i] {
        assert Owner(dp) == Sub(srv, subs[i]);
      }
      if Distinct(subs) {
        assert subs[i] !in subs[..i];
        forall dp | dp in more ensures dp !in names {
          assert !DeviceOf(db, srv, ToSet(subs[..i]), dp);
        }
        DistinctConcat(names, more);
      }
      names := names + more;
    }
    assert subs[..|subs|] == subs;
  }

  /**
    GetDeliveryPointsNameByServiceSubscriber. A wildcard reaches every device of every matching
    subscriber exactly once, whichever way they are found, provided the index is right where it
    is marked built and the service's name is literal where it is not.
   */
  method GetDeliveryPoints(ghost db: Db, built: bool, srv: string, sub: string, walk: seq<string>, smembers: string -> seq<Name>)
    returns (r: Result<seq<Name>>)
    requires WellFormed(db) && Named(db) && NoColon(srv) && db.built == built
    requires forall s :: Distinct(smembers(s)) && Walks(smembers(s), Members(db.devices, Sub(srv, s)))
    requires Walks(walk, if built then IndexFound(db, srv, sub) else KeysMet(db, srv, sub))
    ensures r.Err? <==> '*' in srv
    ensures r.Ok? && '*' !in sub ==> Distinct(r.value) && forall dp :: dp in r.value <==> dp in Members(db.devices, Sub(srv, sub))
    ensures r.Ok? && '*' in sub ==>
              forall dp :: dp in r.value <==> DeviceOf(db, srv, if built then IndexFound(db, srv, sub) else ScanFound(db, srv, sub), dp)
    ensures r.Ok? && '*' in sub && (if built then Agrees(db) else AllLiteral(srv)) ==>
              Distinct(r.value) && forall dp :: dp in r.value <==> DeviceOf(db, srv, Matching(db, srv, sub), dp)
  {
    if '*' in srv {
      return Err;
    }
    var subs := [sub];
    if '*' in sub {
      if built {
        subs := WithoutRepeats(walk);
      } else {
        subs := ScanMatchingSubscribers(db, srv, sub, walk);
      }
    }
    var names := DeliveryPointsOfSubscribers(db, srv, subs, smembers);
    if '*' !in sub {
      forall dp ensures dp in names <==> dp in Members(db.devices, Sub(srv, sub)) {
        assert dp in Members(db.devices, Sub(srv, sub)) ==> Owner(dp) == Sub(srv, sub);
      }
    }
    if '*' in sub && built && Agrees(db) {
      IndexIsRight(db, srv, sub);
    }
    assert '*' in sub ==> ToSet(subs) == if built then IndexFound(db, srv, sub) else ScanFound(db, srv, sub);
    assert '*' in sub && (if built then Agrees(db) else AllLiteral(srv)) ==> ToSet(subs) == Matching(db, srv, sub);
    return Ok(names);
  }
}
