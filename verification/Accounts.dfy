/** The user tables in memory: saving, loading, setting and checking passwords. */
module Accounts {
  import opened Bytes
  import opened Options
  import opened Text
  import opened UserDb

  // ---------------------------------------------------------------- hexadecimal

  const HEX := "0123456789abcdef"
  const UPPER := "0123456789ABCDEF"

  function Hex(b: seq<byte>): (r: string)
    ensures |r| == 2 * |b|
  {
    if b == [] then [] else Hex(b[..|b| - 1]) + [HEX[b[|b| - 1] / 16], HEX[b[|b| - 1] % 16]]
  }

  function HexValue(c: char): nat {
    if '0' <= c <= '9' then (c - '0') as nat
    else if 'a' <= c <= 'f' then (c - 'a') as nat + 10
    else if 'A' <= c <= 'F' then (c - 'A') as nat + 10
    else 0
  }

  /** The character at a position of a stored string; past its end there is only the terminator. */
  function CharAt(s: string, i: nat): char { if i < |s| then s[i] else '\0' }

  /** `hex_byte` */
  function HexByte(s: string, i: nat): (r: byte)
  {
    HexBound(CharAt(s, i));
    HexBound(CharAt(s, i + 1));
    HexValue(CharAt(s, i)) * 16 + HexValue(CharAt(s, i + 1))
  }

  lemma HexBound(c: char)
    ensures HexValue(c) < 16
  {
  }

  lemma HexDigitBack(d: nat)
    requires d < 16
    ensures HexValue(HEX[d]) == d && HEX[d] != ':' && HEX[d] != '\n' && HEX[d] != '\0' && HEX[d] != '%'
  {
  }

  lemma {:induction false} HexAt(b: seq<byte>, i: nat)
    requires i < |b|
    ensures Hex(b)[2 * i] == HEX[b[i] / 16] && Hex(b)[2 * i + 1] == HEX[b[i] % 16]
    decreases |b|
  {
    if i < |b| - 1 { HexAt(b[..|b| - 1], i); }
  }

  lemma HexBack(pre: string, b: seq<byte>, post: string, i: nat)
    requires i < |b|
    ensures HexByte(pre + Hex(b) + post, |pre| + 2 * i) == b[i]
  {
    var s := pre + Hex(b) + post;
    HexAt(b, i);
    assert s[|pre| + 2 * i] == Hex(b)[2 * i] && s[|pre| + 2 * i + 1] == Hex(b)[2 * i + 1];
    HexDigitBack(b[i] / 16);
    HexDigitBack(b[i] % 16);
  }

  lemma HexPlain(b: seq<byte>)
    ensures Plain(Hex(b)) && '%' !in Hex(b)
  {
    forall i | 0 <= i < |Hex(b)| ensures Hex(b)[i] != ':' && Hex(b)[i] != '\n' && Hex(b)[i] != '\0'
      && Hex(b)[i] != '%' {
      HexAt(b, i / 2);
      HexDigitBack(b[i / 2] / 16);
      HexDigitBack(b[i / 2] % 16);
    }
  }

  /** Different bytes are written differently. */
  lemma HexInjective(a: seq<byte>, b: seq<byte>)
    requires Hex(a) == Hex(b)
    ensures a == b
  {
    forall i | 0 <= i < |a| ensures a[i] == b[i] {
      HexBack("", a, "", i);
      HexBack("", b, "", i);
      assert "" + Hex(a) + "" == "" + Hex(b) + "";
    }
  }

  /** The bytes as text, two digits at a time. */
  method ToHex(b: seq<byte>) returns (r: string)
    ensures r == Hex(b)
  {
    r := [];
    for i := 0 to |b|
      invariant r == Hex(b[..i])
    {
      assert b[..i + 1][..i] == b[..i];
      r := r + [HEX[b[i] / 16], HEX[b[i] % 16]];
    }
    assert b[..|b|] == b;
  }

  // ---------------------------------------------------------------- password hashes

  /** SHA-256 is any function to 32 bytes. */
  function Digest(sha: seq<byte> -> seq<byte>, input: seq<byte>): (r: seq<byte>)
    ensures |r| == 32
  {
    if |sha(input)| == 32 then sha(input) else Zeros(32)
  }

  function HashText(salt: seq<byte>, digest: seq<byte>): string { "$sha256$" + Hex(salt) + ("$" + Hex(digest)) }

  /** The salt that a stored hash carries. */
  function SaltOf(stored: string): (r: seq<byte>)
    ensures |r| == 8
  {
    seq(8, i requires 0 <= i => HexByte(stored, 8 + 2 * i))
  }

  /** The first 64 characters from position 25 on. */
  function DigestOf(stored: string): (r: string)
    ensures |r| == 64
  {
    seq(64, i requires 0 <= i => CharAt(stored, 25 + i))
  }

  predicate StartsWith(s: string, prefix: string) { forall i :: 0 <= i < |prefix| ==> CharAt(s, i) == prefix[i] }

  /** `user_authenticate` */
  function Authenticated(us: Users, sha: seq<byte> -> seq<byte>, name: string, password: seq<byte>): int {
    var uid := FindName(us, name, 0);
    if uid < 0 then -2 else
      var stored := us[uid].value.hash;
      if stored == "" || stored[0] == '!' then -3
      else if !StartsWith(stored, "$sha256$") then -4
      else if Hex(Digest(sha, SaltOf(stored) + password)) != DigestOf(stored) then -6
      else uid
  }

  /** Slot `uid` holds the first user of that name. */
  ghost predicate Named(us: Users, name: string, uid: int) {
    && 0 <= uid < |us| && us[uid].Some? && us[uid].value.name == name
    && forall j :: 0 <= j < uid ==> us[j].None? || us[j].value.name != name
  }

  /** No password was ever set, or the account is locked. */
  predicate Locked(stored: string) { stored == "" || stored[0] == '!' }

  /** The hash says that it was made with SHA-256. */
  predicate Tagged(stored: string) { |stored| >= 8 && stored[..8] == "$sha256$" }

  /** The hash is of another kind. */
  predicate Foreign(stored: string) { !Locked(stored) && !Tagged(stored) }

  /** The hash is of this kind and stands for another password. */
  ghost predicate Rejects(stored: string, sha: seq<byte> -> seq<byte>, password: seq<byte>) {
    Tagged(stored) && !Admits(stored, sha, password)
  }

  /** Two hexadecimal digits, of either case, stand for this byte; any other character counts as a zero. */
  ghost predicate TwoDigits(s: string, b: byte)
    requires |s| == 2
  {
    exists h: nat, l: nat :: DigitOf(s[0], h) && DigitOf(s[1], l) && b == 16 * h + l
  }

  ghost predicate DigitOf(c: char, d: nat) {
    if c in HEX || c in UPPER then d < 16 && (c == HEX[d] || c == UPPER[d]) else d == 0
  }

  /**
   The stored hash lets the password in: behind the tag it carries sixteen digits of salt, any one character, and
   the digest of salt and password in small hexadecimal digits.
   */
  ghost predicate Admits(stored: string, sha: seq<byte> -> seq<byte>, password: seq<byte>) {
    && Tagged(stored) && |stored| >= 89
    && exists salt: seq<byte> :: SaltIn(stored, salt) && stored[25..89] == Hex(Digest(sha, salt + password))
  }

  ghost predicate SaltIn(stored: string, salt: seq<byte>)
    requires |stored| >= 89
  {
    |salt| == 8 && forall i :: 0 <= i < 8 ==> TwoDigits(stored[8 + 2 * i..10 + 2 * i], salt[i])
  }

  lemma HexValueIs(c: char, d: nat)
    ensures DigitOf(c, d) <==> HexValue(c) == d
  {
    var v := HexValue(c);
    DigitPlace(c);
    if c in HEX {
      var k :| 0 <= k < 16 && HEX[k] == c;
      HexDigitBack(k);
    } else if c in UPPER {
      var k :| 0 <= k < 16 && UPPER[k] == c;
      UpperDigitBack(k);
    }
    if d < 16 {
      HexDigitBack(d);
      UpperDigitBack(d);
    }
    hide HexValue;
  }

  lemma UpperDigitBack(d: nat)
    requires d < 16
    ensures HexValue(UPPER[d]) == d
  {
  }

  /** A character that counts for something stands in one of the two rows of digits. */
  lemma DigitPlace(c: char)
    ensures HexValue(c) < 16 && (HexValue(c) > 0 ==> c == HEX[HexValue(c)] || c == UPPER[HexValue(c)])
  {
  }

  lemma HexByteIs(s: string, i: nat, b: byte)
    requires i + 2 <= |s|
    ensures TwoDigits(s[i..i + 2], b) <==> HexByte(s, i) == b
  {
    hide HexValue, DigitOf;
    var t := s[i..i + 2];
    HexValueIs(t[0], HexValue(t[0]));
    HexValueIs(t[1], HexValue(t[1]));
    forall h: nat, l: nat | DigitOf(t[0], h) && DigitOf(t[1], l) ensures h == HexValue(t[0]) && l == HexValue(t[1]) {
      HexValueIs(t[0], h);
      HexValueIs(t[1], l);
    }
  }

  lemma SaltIs(stored: string, salt: seq<byte>)
    requires |stored| >= 89
    ensures SaltIn(stored, salt) <==> salt == SaltOf(stored)
  {
    hide TwoDigits, HexByte;
    forall i | 0 <= i < 8 ensures TwoDigits(stored[8 + 2 * i..10 + 2 * i], SaltOf(stored)[i]) {
      HexByteIs(stored, 8 + 2 * i, SaltOf(stored)[i]);
    }
    if SaltIn(stored, salt) {
      forall i | 0 <= i < 8 ensures salt[i] == SaltOf(stored)[i] { HexByteIs(stored, 8 + 2 * i, salt[i]); }
    }
  }

  /** A digest has no terminator in it, so only a hash that is long enough carries one. */
  lemma DigestIs(stored: string, digest: seq<byte>)
    requires |digest| == 32
    ensures DigestOf(stored) == Hex(digest) <==> |stored| >= 89 && stored[25..89] == Hex(digest)
  {
    HexPlain(digest);
    hide Hex, Plain;
    if DigestOf(stored) == Hex(digest) {
      assert DigestOf(stored)[63] in Hex(digest);
      NoTerminator(digest);
      assert stored[25..89] == DigestOf(stored);
    } else if |stored| >= 89 {
      assert stored[25..89] == DigestOf(stored);
    }
  }

  lemma NoTerminator(digest: seq<byte>)
    ensures '\0' !in Hex(digest)
  {
    HexPlain(digest);
  }

  lemma TaggedIs(stored: string)
    ensures Tagged(stored) <==> StartsWith(stored, "$sha256$")
  {
    var tag := "$sha256$";
    if StartsWith(stored, tag) {
      assert CharAt(stored, 7) == tag[7];
      forall i | 0 <= i < 8 ensures stored[..8][i] == tag[i] { assert CharAt(stored, i) == tag[i]; }
    } else if Tagged(stored) {
      forall i | 0 <= i < 8 ensures CharAt(stored, i) == tag[i] { assert stored[..8][i] == tag[i]; }
    }
  }

  lemma AdmitsIs(stored: string, sha: seq<byte> -> seq<byte>, password: seq<byte>)
    requires Tagged(stored)
    ensures Admits(stored, sha, password) <==> DigestOf(stored) == Hex(Digest(sha, SaltOf(stored) + password))
  {
    hide Tagged, Hex, SaltOf, SaltIn, DigestOf;
    DigestIs(stored, Digest(sha, SaltOf(stored) + password));
    if |stored| >= 89 {
      forall salt ensures SaltIn(stored, salt) <==> salt == SaltOf(stored) { SaltIs(stored, salt); }
    }
  }

  /**
   The outcome of a login for every table, name and password: without a user of that name -2; else by the hash of
   the first such user, its number exactly if the hash admits the password, -3 for a locked account, -4 for a hash of
   another kind and -6 for the wrong password.
   */
  lemma LoginIs(us: Users, sha: seq<byte> -> seq<byte>, name: string, password: seq<byte>, r: int)
    requires r == Authenticated(us, sha, name, password)
    ensures r >= 0 <==> exists uid: nat :: Named(us, name, uid) && Admits(us[uid].value.hash, sha, password)
    ensures r >= 0 ==> Named(us, name, r)
    ensures r == -2 <==> forall i :: 0 <= i < |us| ==> us[i].None? || us[i].value.name != name
    ensures r == -3 <==> exists uid: nat :: Named(us, name, uid) && Locked(us[uid].value.hash)
    ensures r == -4 <==> exists uid: nat :: Named(us, name, uid) && Foreign(us[uid].value.hash)
    ensures r == -6 <==> exists uid: nat :: Named(us, name, uid) && Rejects(us[uid].value.hash, sha, password)
  {
    hide Hex, SaltOf, DigestOf, StartsWith, Admits, Tagged, FindName;
    var n := FindName(us, name, 0);
    NamedIs(us, name, n);
    if n >= 0 {
      var h := us[n].value.hash;
      TaggedIs(h);
      TaggedOpen(h);
      if Tagged(h) { AdmitsIs(h, sha, password); }
      AdmitsTagged(h, sha, password);
    }
  }

  lemma NamedIs(us: Users, name: string, n: int)
    requires n == FindName(us, name, 0)
    ensures forall uid: int :: Named(us, name, uid) <==> uid == n >= 0
    ensures n >= 0 ==> n < |us| && us[n].Some?
    ensures n >= -1 && (n < 0 <==> forall i :: 0 <= i < |us| ==> us[i].None? || us[i].value.name != name)
  {
    forall uid: int ensures Named(us, name, uid) <==> uid == n >= 0 {
    }
  }

  lemma TaggedOpen(stored: string)
    ensures Tagged(stored) ==> !Locked(stored)
  {
    if Tagged(stored) { assert stored[0] == stored[..8][0] == '$'; }
  }

  lemma AdmitsTagged(stored: string, sha: seq<byte> -> seq<byte>, password: seq<byte>)
    ensures Admits(stored, sha, password) ==> Tagged(stored)
  {
  }

  /** Nobody logs in to an account without a password, before or after it is saved and loaded. */
  lemma NoPassword(db: Db, before: Db, uid: nat, sha: seq<byte> -> seq<byte>, password: seq<byte>)
    requires DbOk(db) && TextFits(Saved(db)) && uid < 124 && db.users[uid].Some? && Locked(db.users[uid].value.hash)
    ensures Authenticated(db.users, sha, db.users[uid].value.name, password) == -3
    ensures Authenticated(Load(before, Saved(db)).users, sha, db.users[uid].value.name, password) == -3
  {
    hide Load, Saved, UserOk, Admits, Tagged, Hex, SaltOf, DigestOf, StartsWith, Authenticated;
    var name := db.users[uid].value.name;
    LoadUsers(db, before);
    FoundInPlace(db.users, 124, uid);
    var us := Normal(db.users, 124);
    NamedIs(us, name, uid);
    LoginIs(us, sha, name, password, Authenticated(us, sha, name, password));
    assert Named(db.users, name, uid);
    LoginIs(db.users, sha, name, password, Authenticated(db.users, sha, name, password));
  }

  /** A hash carries its salt and its digest. */
  lemma HashParts(salt: seq<byte>, digest: seq<byte>)
    requires |salt| == 8 && |digest| == 32
    ensures var h := HashText(salt, digest);
      SaltOf(h) == salt && DigestOf(h) == Hex(digest) && StartsWith(h, "$sha256$") && h != "" && h[0] != '!'
        && |h| == 89
  {
    hide HashText, Hex, HexByte;
    var h := HashText(salt, digest);
    HashChars(salt, digest);
    forall i | 0 <= i < 8 ensures SaltOf(h)[i] == salt[i] {
      SaltByte(salt, digest, i);
    }
    forall i | 0 <= i < 64 ensures DigestOf(h)[i] == Hex(digest)[i] {
      DigestChar(salt, digest, i);
    }
  }

  lemma HashChars(salt: seq<byte>, digest: seq<byte>)
    requires |salt| == 8 && |digest| == 32
    ensures var h := HashText(salt, digest); |h| == 89 && h[0] == '$' && StartsWith(h, "$sha256$")
  {
    hide Hex;
  }

  lemma SaltByte(salt: seq<byte>, digest: seq<byte>, i: nat)
    requires |salt| == 8 && i < 8
    ensures HexByte(HashText(salt, digest), 8 + 2 * i) == salt[i]
  {
    hide Hex, HexByte;
    HexBack("$sha256$", salt, "$" + Hex(digest), i);
  }

  lemma DigestChar(salt: seq<byte>, digest: seq<byte>, i: nat)
    requires |salt| == 8 && |digest| == 32 && i < 64
    ensures CharAt(HashText(salt, digest), 25 + i) == Hex(digest)[i]
  {
    hide Hex;
  }

  lemma HashPlain(salt: seq<byte>, digest: seq<byte>)
    ensures Plain(HashText(salt, digest))
  {
    HexPlain(salt);
    HexPlain(digest);
    hide Hex;
    assert Plain("$sha256$") && Plain("$");
  }

  function WithHash(us: Users, uid: nat, hash: string): Users {
    if uid < |us| && us[uid].Some? then us[uid := Some(us[uid].value.(hash := hash))] else us
  }

  lemma WithHashOk(us: Users, uid: nat, salt: seq<byte>, digest: seq<byte>)
    requires UsersOk(us) && |salt| == 8 && |digest| == 32
    ensures UsersOk(WithHash(us, uid, HashText(salt, digest)))
  {
    HashPlain(salt, digest);
    HashParts(salt, digest);
    hide HashText, Plain;
  }

  /** Exactly the passwords with the same digest authenticate. */
  lemma CheckAfterSet(us: Users, uid: nat, salt: seq<byte>, digest: seq<byte>, sha: seq<byte> -> seq<byte>,
                      name: string, other: seq<byte>)
    requires FindName(us, name, 0) == uid < |us| && |salt| == 8 && |digest| == 32
    requires us[uid].value.hash == HashText(salt, digest)
    ensures Authenticated(us, sha, name, other) == if Digest(sha, salt + other) == digest then uid else -6
  {
    HashParts(salt, digest);
    hide HashText, FindName, SaltOf, DigestOf;
    if Hex(Digest(sha, salt + other)) == Hex(digest) {
      HexInjective(Digest(sha, salt + other), digest);
    }
  }

  /** A password set before a save is the one that authenticates after the load, to the same user. */
  lemma PasswordSurvives(db: Db, before: Db, uid: nat, salt: seq<byte>, sha: seq<byte> -> seq<byte>,
                         password: seq<byte>, other: seq<byte>)
    requires DbOk(db) && uid < 124 && db.users[uid].Some? && |salt| == 8
    requires TextFits(Saved(db.(users := WithHash(db.users, uid, HashText(salt, Digest(sha, salt + password))))))
    ensures var now := db.(users := WithHash(db.users, uid, HashText(salt, Digest(sha, salt + password))));
      Authenticated(Load(before, Saved(now)).users, sha, db.users[uid].value.name, other)
        == if Digest(sha, salt + other) == Digest(sha, salt + password) then uid else -6
  {
    hide HashText, Load, Saved, FindName, UserOk;
    var digest := Digest(sha, salt + password);
    var h := HashText(salt, digest);
    var us := WithHash(db.users, uid, h);
    WithHashOk(db.users, uid, salt, digest);
    HashParts(salt, digest);
    var now := db.(users := us);
    assert us[uid].Some?;
    LoadUsers(now, before);
    FoundInPlace(us, 124, uid);
    CheckAfterSet(Normal(us, 124), uid, salt, digest, sha, db.users[uid].value.name, other);
  }

  // ---------------------------------------------------------------- the tables in place

  class UserTables {
    var users: Users
    var groups: Groups

    constructor ()
      ensures users == NoUsers() && groups == NoGroups()
    {
      users, groups := NoUsers(), NoGroups();
    }

    ghost predicate Valid()
      reads this
    {
      |users| == 124 && |groups| == 124
    }

    ghost function View(): Db
      reads this
    {
      Db(users, groups)
    }

    method FindByName(name: string) returns (r: int)
      requires Valid()
      ensures r == FindName(users, name, 0)
    {
      var i := 0;
      while i < 124
        invariant 0 <= i <= 124 && FindName(users, name, 0) == FindName(users, name, i)
      {
        if users[i].Some? && users[i].value.name == name {
          return i;
        }
        i := i + 1;
      }
      return -1;
    }

    /** `user_save_to_disk`: the texts of the three files, cut where a buffer ends. */
    method SaveToDisk() returns (f: Files)
      requires Valid()
      ensures var g := Saved(View());
        f == Files(Cut(g.passwd, 32767), Cut(g.shadow, 32767), Cut(g.group, 16383))
      ensures f == Saved(View()) <==> TextFits(Saved(View()))
    {
      hide PasswdText, ShadowText, GroupText, Join, Format, Prints, Cut;
      var pbuf: string, sbuf: string, gbuf: string := [], [], [];
      TextStart(users, groups);
      for i := 0 to 124
        invariant |pbuf| < 32768 && pbuf == Cut(PasswdText(users, i), 32767)
        invariant |sbuf| < 32768 && sbuf == Cut(ShadowText(users, i), 32767)
      {
        TextNext(users, i);
        if users[i].None? {
          continue;
        }
        var u := users[i].value;
        var line := Fmt(PasswdFormat, [S(u.name), D(i), D(u.gid), S(u.home), S(u.shell)], 32768 - |pbuf|);
        PasswdLine(i, u);
        CutAppend(PasswdText(users, i), Join(PasswdFields(i, u)) + "\n", 32767);
        pbuf := pbuf + line;
        line := Fmt(ShadowFormat, [S(u.name), S(if u.hash != "" then u.hash else "!")], 32768 - |sbuf|);
        ShadowLine(u);
        CutAppend(ShadowText(users, i), Join(ShadowFields(u)) + "\n", 32767);
        sbuf := sbuf + line;
      }
      for i := 0 to 124
        invariant |gbuf| < 16384 && gbuf == Cut(GroupText(groups, i), 16383)
      {
        GroupNext(groups, i);
        if groups[i].None? {
          continue;
        }
        var g := groups[i].value;
        var line := Fmt(GroupFormat, [S(g.name), D(i), D(g.perms)], 16384 - |gbuf|);
        GroupLine(i, g);
        CutAppend(GroupText(groups, i), Join(GroupFields(i, g)) + "\n", 16383);
        gbuf := gbuf + line;
      }
      f := Files(pbuf, sbuf, gbuf);
      CutWhole(PasswdText(users, 124), 32767);
      CutWhole(ShadowText(users, 124), 32767);
      CutWhole(GroupText(groups, 124), 16383);
    }

    method TakeGroup(line: string)
      requires Valid()
      modifies this`groups
      ensures Valid() && groups == ReadGroup(old(groups), line)
    {
      if line == "" {
        return;
      }
      var fields := SplitFields(line, 8);
      if |fields| >= 4 {
        var gid := Atoi(fields[2]);
        var perms := Atoi(fields[3]);
        if gid < 124 {
          groups := groups[gid := Some(Group(fields[0], perms))];
        }
      }
    }

    method TakeUser(line: string)
      requires Valid()
      modifies this`users
      ensures Valid() && users == ReadUser(old(users), line)
    {
      if line == "" {
        return;
      }
      var fields := SplitFields(line, 8);
      if |fields| >= 7 {
        var uid := Atoi(fields[2]);
        var gid := Atoi(fields[3]);
        if uid < 124 {
          users := users[uid := Some(User(gid, fields[0], "", CutTo(fields[5], 128), CutTo(fields[6], 64)))];
        }
      }
    }

    method TakeShadow(line: string)
      requires Valid()
      modifies this`users
      ensures Valid() && users == ReadShadow(old(users), line)
    {
      if line == "" {
        return;
      }
      var fields := SplitFields(line, 10);
      if |fields| >= 2 {
        var uid := FindByName(fields[0]);
        if uid >= 0 {
          users := users[uid := Some(users[uid].value.(hash := CutTo(fields[1], 128)))];
        }
      }
    }

    method LoadGroups(text: string)
      requires Valid() && groups == NoGroups()
      modifies this`groups
      ensures Valid() && groups == ReadGroups(NoGroups(), Lines(text))
    {
      hide Lines, ReadGroup, ReadGroups;
      ghost var done: seq<string> := [];
      var at := 0;
      LinesStart(text);
      GroupsStart();
      while at < |text|
        invariant 0 <= at <= |text| && Valid()
        invariant done + LinesFrom(text, at) == Lines(text) && groups == ReadGroups(NoGroups(), done)
      {
        var end := LineEnd(text, at);
        LinesStep(text, at, done);
        GroupsMore(done, text[at..end]);
        TakeGroup(text[at..end]);
        done := done + [text[at..end]];
        at := if end == |text| then end else end + 1;
      }
      LinesEnd(text, done);
    }

    method LoadUsers(text: string)
      requires Valid() && users == NoUsers()
      modifies this`users
      ensures Valid() && users == ReadUsers(NoUsers(), Lines(text))
    {
      hide Lines, ReadUser, ReadUsers;
      ghost var done: seq<string> := [];
      var at := 0;
      LinesStart(text);
      UsersStart(users);
      while at < |text|
        invariant 0 <= at <= |text| && Valid()
        invariant done + LinesFrom(text, at) == Lines(text) && users == ReadUsers(NoUsers(), done)
      {
        var end := LineEnd(text, at);
        LinesStep(text, at, done);
        UsersMore(done, text[at..end]);
        TakeUser(text[at..end]);
        done := done + [text[at..end]];
        at := if end == |text| then end else end + 1;
      }
      LinesEnd(text, done);
    }

    method LoadShadows(text: string)
      requires Valid()
      modifies this`users
      ensures Valid() && users == ReadShadows(old(users), Lines(text))
    {
      hide Lines, ReadShadow, ReadShadows;
      ghost var done: seq<string> := [];
      var at := 0;
      LinesStart(text);
      UsersStart(users);
      while at < |text|
        invariant 0 <= at <= |text| && Valid()
        invariant done + LinesFrom(text, at) == Lines(text) && users == ReadShadows(old(users), done)
      {
        var end := LineEnd(text, at);
        LinesStep(text, at, done);
        ShadowsMore(old(users), done, text[at..end]);
        TakeShadow(text[at..end]);
        done := done + [text[at..end]];
        at := if end == |text| then end else end + 1;
      }
      LinesEnd(text, done);
    }

    /** `user_load_from_disk` */
    method LoadFromDisk(f: Files)
      requires Valid()
      modifies this
      ensures Valid() && View() == Load(old(View()), f)
    {
      if Readable(f.group) {
        groups := NoGroups();
        LoadGroups(f.group);
      }
      if Readable(f.passwd) {
        users := NoUsers();
        LoadUsers(f.passwd);
      }
      if Readable(f.shadow) {
        LoadShadows(f.shadow);
      }
    }

    /** `user_set_password`, with the salt the generator gave. */
    method SetPassword(uid: int, password: seq<byte>, salt: seq<byte>, sha: seq<byte> -> seq<byte>) returns (r: int)
      requires Valid() && |salt| == 8
      modifies this`users
      ensures Valid() && r == (if 0 <= uid < 124 && old(users)[uid].Some? then 0 else -1)
      ensures users == if r == 0 then WithHash(old(users), uid, HashText(salt, Digest(sha, salt + password)))
        else old(users)
    {
      if uid < 0 || uid >= 124 || users[uid].None? {
        return -1;
      }
      var digest := Digest(sha, salt + password);
      var saltHex := ToHex(salt);
      var digestHex := ToHex(digest);
      var text := Fmt("$sha256$%s$%s", [S(saltHex), S(digestHex)], 128);
      HashPrinted(salt, digest);
      users := users[uid := Some(users[uid].value.(hash := text))];
      return 0;
    }

    /** `user_authenticate` */
    method Authenticate(name: string, password: seq<byte>, sha: seq<byte> -> seq<byte>) returns (r: int)
      requires Valid()
      ensures r == Authenticated(users, sha, name, password)
      ensures r >= 0 <==> exists uid: nat :: Named(users, name, uid) && Admits(users[uid].value.hash, sha, password)
      ensures r >= 0 ==> Named(users, name, r)
    {
      hide Admits, Named, Hex, DigestOf, HexByte;
      LoginIs(users, sha, name, password, Authenticated(users, sha, name, password));
      var uid := FindByName(name);
      if uid < 0 {
        return -2;
      }
      var stored := users[uid].value.hash;
      if stored == "" || stored[0] == '!' {
        return -3;
      }
      if !StartsWith(stored, "$sha256$") {
        return -4;
      }
      var salt: seq<byte> := [];
      for i := 0 to 8
        invariant salt == SaltOf(stored)[..i]
      {
        salt := salt + [HexByte(stored, 8 + 2 * i)];
      }
      assert salt == SaltOf(stored);
      var computed := ToHex(Digest(sha, salt + password));
      if computed != DigestOf(stored) {
        return -6;
      }
      return uid;
    }
  }

  /** What the format for a hash prints fits its field. */
  lemma HashPrinted(salt: seq<byte>, digest: seq<byte>)
    requires |salt| == 8 && |digest| == 32
    ensures Cut(Format("$sha256$%s$%s", [S(Hex(salt)), S(Hex(digest))]), 127) == HashText(salt, digest)
  {
    hide Format, Hex;
    var a, b := Hex(salt), Hex(digest);
    assert "$sha256$%s$%s" == "$sha256$" + ("%s" + ("$" + ("%s" + "")));
    assert [S(a), S(b)] == [S(a)] + ([S(b)] + []);
    FormatLiteral("$sha256$", "%s" + ("$" + ("%s" + "")), [S(a)] + ([S(b)] + []));
    FormatString("$" + ("%s" + ""), a, [S(b)] + []);
    FormatLiteral("$", "%s" + "", [S(b)] + []);
    FormatString("", b, []);
    NothingFormatted();
    assert b + "" == b;
    assert "$sha256$" + (a + ("$" + b)) == "$sha256$" + a + ("$" + b);
  }

  lemma NothingFormatted()
    ensures Format("", []) == ""
  {
  }

  // ---------------------------------------------------------------- going through a text line by line

  method LineEnd(text: string, at: nat) returns (e: nat)
    requires at <= |text|
    ensures e == Newline(text, at)
  {
    e := at;
    while e < |text| && text[e] != '\n'
      invariant at <= e <= |text| && Newline(text, at) == Newline(text, e)
    {
      e := e + 1;
    }
  }

  function LinesFrom(text: string, at: nat): seq<string>
    requires at <= |text|
  {
    Lines(text[at..])
  }

  lemma LinesStart(text: string)
    ensures [] + LinesFrom(text, 0) == Lines(text)
  {
  }

  lemma LinesStep(text: string, at: nat, done: seq<string>)
    requires at < |text|
    ensures var e := Newline(text, at);
      done + LinesFrom(text, at) == done + [text[at..e]] + LinesFrom(text, if e == |text| then e else e + 1)
  {
    var t, e := text[at..], Newline(text, at);
    NewlineShift(text, at);
    assert t[..e - at] == text[at..e];
    if e < |text| {
      assert t[e - at + 1..] == text[e + 1..];
    } else {
      assert text[e..] == [] && t == text[at..e];
    }
  }

  lemma NewlineShift(text: string, at: nat)
    requires at <= |text|
    ensures Newline(text[at..], 0) == Newline(text, at) - at
  {
  }

  lemma LinesEnd(text: string, done: seq<string>)
    requires done + LinesFrom(text, |text|) == Lines(text)
    ensures done == Lines(text)
  {
  }

  lemma GroupsStart()
    ensures ReadGroups(NoGroups(), []) == NoGroups()
  {
  }

  lemma UsersStart(us: Users)
    ensures ReadUsers(us, []) == us && ReadShadows(us, []) == us
  {
  }

  lemma GroupsMore(done: seq<string>, line: string)
    ensures ReadGroups(NoGroups(), done + [line]) == ReadGroup(ReadGroups(NoGroups(), done), line)
  {
  }

  lemma UsersMore(done: seq<string>, line: string)
    ensures ReadUsers(NoUsers(), done + [line]) == ReadUser(ReadUsers(NoUsers(), done), line)
  {
  }

  lemma ShadowsMore(us: Users, done: seq<string>, line: string)
    ensures ReadShadows(us, done + [line]) == ReadShadow(ReadShadows(us, done), line)
  {
  }

  lemma TextStart(us: Users, gs: Groups)
    ensures PasswdText(us, 0) == "" && ShadowText(us, 0) == "" && GroupText(gs, 0) == ""
    ensures Cut("", 32767) == "" && Cut("", 16383) == ""
  {
  }

  /** Appending to what was cut, cut again to the room that is left, is one cut. */
  lemma CutAppend(a: string, b: string, n: nat)
    ensures |Cut(a, n)| <= n && Cut(a + b, n) == Cut(a, n) + Cut(b, n - |Cut(a, n)|) && |Cut(a + b, n)| <= n
  {
  }

  lemma CutWhole(s: string, n: nat)
    ensures Cut(s, n) == s <==> |s| <= n
  {
  }

  lemma PasswdLine(uid: nat, u: User)
    ensures Format(PasswdFormat, [S(u.name), D(uid), D(u.gid), S(u.home), S(u.shell)]) ==
      Join(PasswdFields(uid, u)) + "\n"
  {
    PasswdPrinted(uid, u);
  }

  lemma ShadowLine(u: User)
    ensures Format(ShadowFormat, [S(u.name), S(StoredHash(u))]) == Join(ShadowFields(u)) + "\n"
  {
    ShadowPrinted(u);
  }

  lemma GroupLine(gid: nat, g: Group)
    ensures Format(GroupFormat, [S(g.name), D(gid), D(g.perms)]) == Join(GroupFields(gid, g)) + "\n"
  {
    GroupPrinted(gid, g);
  }

  /** One more slot adds its line, and no prefix of a text is longer than the text. */
  lemma TextNext(us: Users, i: nat)
    requires i < |us| == 124
    ensures us[i].None? ==> PasswdText(us, i + 1) == PasswdText(us, i) && ShadowText(us, i + 1) == ShadowText(us, i)
    ensures us[i].Some? ==> PasswdText(us, i + 1) == PasswdText(us, i) + (Join(PasswdFields(i, us[i].value)) + "\n")
    ensures us[i].Some? ==> ShadowText(us, i + 1) == ShadowText(us, i) + (Join(ShadowFields(us[i].value)) + "\n")
  {
    hide Join;
    if us[i].Some? {
      UnlinesAppend(PasswdLines(us, i), Join(PasswdFields(i, us[i].value)));
      UnlinesAppend(ShadowLines(us, i), Join(ShadowFields(us[i].value)));
    }
  }

  lemma GroupNext(gs: Groups, i: nat)
    requires i < |gs| == 124
    ensures gs[i].None? ==> GroupText(gs, i + 1) == GroupText(gs, i)
    ensures gs[i].Some? ==> GroupText(gs, i + 1) == GroupText(gs, i) + (Join(GroupFields(i, gs[i].value)) + "\n")
  {
    hide Join;
    if gs[i].Some? { UnlinesAppend(GroupLines(gs, i), Join(GroupFields(i, gs[i].value))); }
  }
}
