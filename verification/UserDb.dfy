/** The user database: what it writes to the disk, and what it makes of that when it reads it back. */
module UserDb {
  import opened Options
  import opened Text

  datatype User = User(gid: nat, name: string, hash: string, home: string, shell: string)

  datatype Group = Group(name: string, perms: nat)

  /** A user or group stands in the slot of its number; `None` where there is none. */
  type Users = seq<Option<User>>
  type Groups = seq<Option<Group>>

  // ---------------------------------------------------------------- what the text files can carry

  predicate UserOk(u: User) {
    Plain(u.name) && Plain(u.hash) && Plain(u.home) && Plain(u.shell) && |u.hash| < 128 && |u.home| < 128
      && |u.shell| < 64
  }

  ghost predicate UsersOk(us: Users) {
    && |us| == 124 && (forall i :: 0 <= i < |us| && us[i].Some? ==> UserOk(us[i].value))
    && (forall i, j :: 0 <= i < j < |us| && us[i].Some? && us[j].Some? ==> us[i].value.name != us[j].value.name)
  }

  ghost predicate GroupsOk(gs: Groups) {
    |gs| == 124 && forall i :: 0 <= i < |gs| && gs[i].Some? ==> Plain(gs[i].value.name)
  }

  // ---------------------------------------------------------------- printing

  function PasswdFields(uid: nat, u: User): seq<string> {
    [u.name, "x", Digits(uid), Digits(u.gid), "", u.home, u.shell]
  }

  function StoredHash(u: User): string { if u.hash == "" then "!" else u.hash }

  function ShadowFields(u: User): seq<string> { [u.name, StoredHash(u), "0", "0", "99999", "7", "", "", ""] }

  function GroupFields(gid: nat, g: Group): seq<string> { [g.name, "x", Digits(gid), Digits(g.perms)] }

  /** The lines for the first `n` slots. */
  function PasswdLines(us: Users, n: nat): seq<string>
    requires n <= |us|
  {
    if n == 0 then [] else if us[n - 1].None? then PasswdLines(us, n - 1)
      else PasswdLines(us, n - 1) + [Join(PasswdFields(n - 1, us[n - 1].value))]
  }

  function ShadowLines(us: Users, n: nat): seq<string>
    requires n <= |us|
  {
    if n == 0 then [] else if us[n - 1].None? then ShadowLines(us, n - 1)
      else ShadowLines(us, n - 1) + [Join(ShadowFields(us[n - 1].value))]
  }

  function GroupLines(gs: Groups, n: nat): seq<string>
    requires n <= |gs|
  {
    if n == 0 then [] else if gs[n - 1].None? then GroupLines(gs, n - 1)
      else GroupLines(gs, n - 1) + [Join(GroupFields(n - 1, gs[n - 1].value))]
  }

  // ---------------------------------------------------------------- parsing

  /** What fits in a field of `n` bytes with its terminator. */
  function CutTo(s: string, n: nat): (r: string)
    requires n > 0
    ensures r <= s && |r| == if |s| < n then |s| else n - 1
  {
    if |s| < n then s else s[..n - 1]
  }

  function ReadUser(us: Users, line: string): Users {
    var f := Fields(line, 8);
    if line == "" || |f| < 7 then us else
      var uid := Number(f[2], 0);
      if uid < |us| then us[uid := Some(User(Number(f[3], 0), f[0], "", CutTo(f[5], 128), CutTo(f[6], 64)))] else us
  }

  function ReadGroup(gs: Groups, line: string): Groups {
    var f := Fields(line, 8);
    if line == "" || |f| < 4 then gs else
      var gid := Number(f[2], 0);
      if gid < |gs| then gs[gid := Some(Group(f[0], Number(f[3], 0)))] else gs
  }

  /** `user_find_by_name`, from slot `i` on. */
  function FindName(us: Users, name: string, i: nat): (r: int)
    requires i <= |us|
    ensures r == -1 || (i <= r < |us| && us[r].Some? && us[r].value.name == name)
    ensures forall j :: i <= j < (if r < 0 then |us| else r) ==> us[j].None? || us[j].value.name != name
    decreases |us| - i
  {
    if i == |us| then -1 else if us[i].Some? && us[i].value.name == name then i else FindName(us, name, i + 1)
  }

  function ReadShadow(us: Users, line: string): Users {
    var f := Fields(line, 10);
    if line == "" || |f| < 2 then us else
      var uid := FindName(us, f[0], 0);
      if uid < 0 then us else us[uid := Some(us[uid].value.(hash := CutTo(f[1], 128)))]
  }

  function ReadUsers(us: Users, lines: seq<string>): Users
    decreases |lines|
  {
    if lines == [] then us else ReadUser(ReadUsers(us, lines[..|lines| - 1]), lines[|lines| - 1])
  }

  function ReadGroups(gs: Groups, lines: seq<string>): Groups
    decreases |lines|
  {
    if lines == [] then gs else ReadGroup(ReadGroups(gs, lines[..|lines| - 1]), lines[|lines| - 1])
  }

  function ReadShadows(us: Users, lines: seq<string>): Users
    decreases |lines|
  {
    if lines == [] then us else ReadShadow(ReadShadows(us, lines[..|lines| - 1]), lines[|lines| - 1])
  }

  // ---------------------------------------------------------------- reading back one line

  lemma DigitsPlain(n: nat)
    ensures Plain(Digits(n))
  {
  }

  lemma LiteralPlain()
    ensures Plain("x") && Plain("") && Plain("0") && Plain("99999") && Plain("7") && Plain("!")
  {
  }

  /** A line of whatever fields: with fewer than seven, or a number out of range, it is skipped. */
  lemma ReadUserIs(us: Users, g: seq<string>)
    requires g != [] && forall i :: 0 <= i < |g| ==> ':' !in g[i]
    ensures ReadUser(us, Join(g)) ==
      if |g| < 7 || Number(g[2], 0) >= |us| then us
      else us[Number(g[2], 0) := Some(User(Number(g[3], 0), g[0], "", CutTo(g[5], 128), CutTo(g[6], 64)))]
  {
    hide Fields, Join, AtMost;
    FieldsOfJoin(g, 8);
    if |g| > 1 { JoinNotEmpty(g); }
  }

  lemma ReadGroupIs(gs: Groups, g: seq<string>)
    requires g != [] && forall i :: 0 <= i < |g| ==> ':' !in g[i]
    ensures ReadGroup(gs, Join(g)) ==
      if |g| < 4 || Number(g[2], 0) >= |gs| then gs else gs[Number(g[2], 0) := Some(Group(g[0], Number(g[3], 0)))]
  {
    hide Fields, Join, AtMost;
    FieldsOfJoin(g, 8);
    if |g| > 1 { JoinNotEmpty(g); }
  }

  /** A hash goes to the first user of that name; a line for nobody is skipped. */
  lemma ReadShadowIs(us: Users, g: seq<string>, i: nat)
    requires g != [] && (forall i :: 0 <= i < |g| ==> ':' !in g[i]) && i < |us|
    ensures |ReadShadow(us, Join(g))| == |us|
    ensures var mine := |g| >= 2 && us[i].Some? && us[i].value.name == g[0]
        && forall j :: 0 <= j < i ==> us[j].None? || us[j].value.name != g[0];
      ReadShadow(us, Join(g))[i] == if mine then Some(us[i].value.(hash := CutTo(g[1], 128))) else us[i]
  {
    hide Fields, Join, AtMost;
    FieldsOfJoin(g, 10);
    if |g| > 1 { JoinNotEmpty(g); }
  }

  lemma ReadUserBack(us: Users, uid: nat, u: User)
    requires UserOk(u)
    ensures ReadUser(us, Join(PasswdFields(uid, u))) == if uid < |us| then us[uid := Some(u.(hash := ""))] else us
  {
    hide Fields, Join;
    var f := PasswdFields(uid, u);
    DigitsPlain(uid);
    DigitsPlain(u.gid);
    LiteralPlain();
    FieldsOfJoin(f, 8);
    NumberOfDigits(uid);
    NumberOfDigits(u.gid);
    JoinNotEmpty(f);
  }

  lemma JoinNotEmpty(f: seq<string>)
    requires |f| > 1
    ensures Join(f) != ""
  {
  }

  lemma ReadGroupBack(gs: Groups, gid: nat, g: Group)
    requires Plain(g.name)
    ensures ReadGroup(gs, Join(GroupFields(gid, g))) == if gid < |gs| then gs[gid := Some(g)] else gs
  {
    hide Fields, Join;
    var f := GroupFields(gid, g);
    DigitsPlain(gid);
    DigitsPlain(g.perms);
    LiteralPlain();
    FieldsOfJoin(f, 8);
    NumberOfDigits(gid);
    NumberOfDigits(g.perms);
    JoinNotEmpty(f);
  }

  lemma ReadShadowBack(us: Users, u: User)
    requires UserOk(u)
    ensures var uid := FindName(us, u.name, 0);
      ReadShadow(us, Join(ShadowFields(u))) == if uid < 0 then us
        else us[uid := Some(us[uid].value.(hash := StoredHash(u)))]
  {
    hide Fields, Join, FindName;
    var f := ShadowFields(u);
    LiteralPlain();
    FieldsOfJoin(f, 10);
    JoinNotEmpty(f);
  }

  // ---------------------------------------------------------------- reading back the whole

  function NoUsers(): Users { seq(124, i => None) }

  function NoGroups(): Groups { seq(124, i => None) }

  /** The first `n` users without their hashes, and nobody else. */
  function Bare(us: Users, n: nat): (r: Users)
    ensures |r| == |us| && forall i :: 0 <= i < |us| ==>
      r[i] == if i < n && us[i].Some? then Some(us[i].value.(hash := "")) else None
  {
    seq(|us|, i requires 0 <= i < |us| => if i < n && us[i].Some? then Some(us[i].value.(hash := "")) else None)
  }

  /** The users with their hashes as stored, for the first `n`, and without for the others. */
  function Normal(us: Users, n: nat): (r: Users)
    ensures |r| == |us| && forall i :: 0 <= i < |us| ==>
      r[i] == if us[i].Some? then Some(us[i].value.(hash := if i < n then StoredHash(us[i].value) else "")) else None
  {
    seq(|us|, i requires 0 <= i < |us| =>
      if us[i].Some? then Some(us[i].value.(hash := if i < n then StoredHash(us[i].value) else "")) else None)
  }

  function FirstGroups(gs: Groups, n: nat): (r: Groups)
    ensures |r| == |gs| && forall i :: 0 <= i < |gs| ==> r[i] == if i < n then gs[i] else None
  {
    seq(|gs|, i requires 0 <= i < |gs| => if i < n then gs[i] else None)
  }

  lemma DropLast<T>(s: seq<T>, x: T)
    ensures (s + [x])[..|s + [x]| - 1] == s && (s + [x])[|s|] == x
  {
  }

  lemma {:induction false} UsersBack(us: Users, n: nat)
    requires UsersOk(us) && n <= 124
    ensures ReadUsers(NoUsers(), PasswdLines(us, n)) == Bare(us, n)
  {
    hide ReadUser, Join, UserOk, PasswdFields;
    if n == 0 {
      assert NoUsers() == Bare(us, 0);
    } else {
      UsersBack(us, n - 1);
      if us[n - 1].Some? {
        DropLast(PasswdLines(us, n - 1), Join(PasswdFields(n - 1, us[n - 1].value)));
        ReadUserBack(Bare(us, n - 1), n - 1, us[n - 1].value);
        assert Bare(us, n - 1)[n - 1 := Some(us[n - 1].value.(hash := ""))] == Bare(us, n);
      } else {
        assert Bare(us, n - 1) == Bare(us, n);
      }
    }
  }

  lemma {:induction false} GroupsBack(gs: Groups, n: nat)
    requires GroupsOk(gs) && n <= 124
    ensures ReadGroups(NoGroups(), GroupLines(gs, n)) == FirstGroups(gs, n)
  {
    hide ReadGroup, Join, Plain, GroupFields;
    if n == 0 {
      assert NoGroups() == FirstGroups(gs, 0);
    } else {
      GroupsBack(gs, n - 1);
      if gs[n - 1].Some? {
        DropLast(GroupLines(gs, n - 1), Join(GroupFields(n - 1, gs[n - 1].value)));
        ReadGroupBack(FirstGroups(gs, n - 1), n - 1, gs[n - 1].value);
        assert FirstGroups(gs, n - 1)[n - 1 := gs[n - 1]] == FirstGroups(gs, n);
      } else {
        assert FirstGroups(gs, n - 1) == FirstGroups(gs, n);
      }
    }
  }

  /** A name that is unique is found in its own slot. */
  lemma FoundInPlace(us: Users, n: nat, uid: nat)
    requires UsersOk(us) && uid < 124 && us[uid].Some?
    ensures FindName(Normal(us, n), us[uid].value.name, 0) == uid
  {
  }

  lemma {:induction false} ShadowsBack(us: Users, n: nat)
    requires UsersOk(us) && n <= 124
    ensures ReadShadows(Normal(us, 0), ShadowLines(us, n)) == Normal(us, n)
  {
    hide ReadShadow, Join, UserOk, ShadowFields, FindName, Normal, StoredHash;
    if n > 0 {
      ShadowsBack(us, n - 1);
      if us[n - 1].Some? {
        DropLast(ShadowLines(us, n - 1), Join(ShadowFields(us[n - 1].value)));
        ReadShadowBack(Normal(us, n - 1), us[n - 1].value);
        FoundInPlace(us, n - 1, n - 1);
      }
      NormalStep(us, n);
    }
  }

  lemma NormalStep(us: Users, n: nat)
    requires |us| == 124 && 0 < n <= 124
    ensures us[n - 1].None? ==> Normal(us, n - 1) == Normal(us, n)
    ensures var m := Normal(us, n - 1);
      us[n - 1].Some? ==>
        && m[n - 1].Some?
        && m[n - 1 := Some(m[n - 1].value.(hash := StoredHash(us[n - 1].value)))] == Normal(us, n)
  {
  }

  // ---------------------------------------------------------------- files

  datatype Db = Db(users: Users, groups: Groups)

  /** The three text files. */
  datatype Files = Files(passwd: string, shadow: string, group: string)

  function PasswdText(us: Users, n: nat): string
    requires n <= |us|
  {
    Unlines(PasswdLines(us, n))
  }

  function ShadowText(us: Users, n: nat): string
    requires n <= |us|
  {
    Unlines(ShadowLines(us, n))
  }

  function GroupText(gs: Groups, n: nat): string
    requires n <= |gs|
  {
    Unlines(GroupLines(gs, n))
  }

  /** `read_full_file` gives nothing for an empty or a large file. */
  predicate Readable(text: string) { 0 < |text| <= 65536 }

  /** `user_load_from_disk`, over the tables in memory; an unreadable file leaves its table alone. */
  function Load(db: Db, f: Files): Db {
    var groups := if Readable(f.group) then ReadGroups(NoGroups(), Lines(f.group)) else db.groups;
    var users := if Readable(f.passwd) then ReadUsers(NoUsers(), Lines(f.passwd)) else db.users;
    Db(if Readable(f.shadow) then ReadShadows(users, Lines(f.shadow)) else users, groups)
  }

  ghost predicate DbOk(db: Db) { UsersOk(db.users) && GroupsOk(db.groups) }

  function Saved(db: Db): Files
    requires |db.users| == 124 && |db.groups| == 124
  {
    Files(PasswdText(db.users, 124), ShadowText(db.users, 124), GroupText(db.groups, 124))
  }

  /** The texts fit the buffers they are put together in. */
  predicate TextFits(f: Files) { |f.passwd| < 32768 && |f.shadow| < 32768 && |f.group| < 16384 }

  lemma {:induction false} JoinPlain(f: seq<string>)
    requires forall i :: 0 <= i < |f| ==> Plain(f[i])
    ensures '\n' !in Join(f)
    decreases |f|
  {
    if |f| > 1 { JoinPlain(f[1..]); }
  }

  lemma {:induction false} LinesPlain(us: Users, n: nat)
    requires UsersOk(us) && n <= 124
    ensures forall i :: 0 <= i < |PasswdLines(us, n)| ==> '\n' !in PasswdLines(us, n)[i]
    ensures forall i :: 0 <= i < |ShadowLines(us, n)| ==> '\n' !in ShadowLines(us, n)[i]
    ensures |PasswdLines(us, n)| == |ShadowLines(us, n)|
      && (PasswdLines(us, n) == [] <==> forall i :: 0 <= i < n ==> us[i].None?)
  {
    hide Join, Plain;
    if n > 0 {
      LinesPlain(us, n - 1);
      if us[n - 1].Some? {
        DigitsPlain(n - 1);
        DigitsPlain(us[n - 1].value.gid);
        LiteralPlain();
        JoinPlain(PasswdFields(n - 1, us[n - 1].value));
        JoinPlain(ShadowFields(us[n - 1].value));
      }
    }
  }

  lemma {:induction false} GroupLinesPlain(gs: Groups, n: nat)
    requires GroupsOk(gs) && n <= 124
    ensures forall i :: 0 <= i < |GroupLines(gs, n)| ==> '\n' !in GroupLines(gs, n)[i]
    ensures GroupLines(gs, n) == [] <==> forall i :: 0 <= i < n ==> gs[i].None?
  {
    hide Join, Plain;
    if n > 0 {
      GroupLinesPlain(gs, n - 1);
      if gs[n - 1].Some? {
        DigitsPlain(n - 1);
        DigitsPlain(gs[n - 1].value.perms);
        LiteralPlain();
        JoinPlain(GroupFields(n - 1, gs[n - 1].value));
      }
    }
  }

  lemma UnlinesEmpty(lines: seq<string>)
    ensures Unlines(lines) == "" <==> lines == []
  {
  }

  predicate Occupied<T>(table: seq<Option<T>>) { exists i :: 0 <= i < |table| && table[i].Some? }

  /** An empty file is not read, so a table is rebuilt from what was saved of it exactly when it had an entry. */
  lemma LoadUsers(db: Db, before: Db)
    requires DbOk(db) && TextFits(Saved(db))
    ensures Load(before, Saved(db)).users == if Occupied(db.users) then Normal(db.users, 124) else before.users
  {
    hide PasswdLines, ShadowLines, GroupLines, Lines, Unlines, ReadUsers, ReadGroups, ReadShadows, UserOk;
    var us := db.users;
    LinesPlain(us, 124);
    UnlinesEmpty(PasswdLines(us, 124));
    UnlinesEmpty(ShadowLines(us, 124));
    LinesOfUnlines(PasswdLines(us, 124));
    LinesOfUnlines(ShadowLines(us, 124));
    UsersBack(us, 124);
    assert Bare(us, 124) == Normal(us, 0);
    ShadowsBack(us, 124);
  }

  lemma LoadGroups(db: Db, before: Db)
    requires DbOk(db) && TextFits(Saved(db))
    ensures Load(before, Saved(db)).groups == if Occupied(db.groups) then db.groups else before.groups
  {
    hide PasswdLines, ShadowLines, GroupLines, Lines, Unlines, ReadUsers, ReadGroups, ReadShadows, UserOk;
    var gs := db.groups;
    GroupLinesPlain(gs, 124);
    UnlinesEmpty(GroupLines(gs, 124));
    LinesOfUnlines(GroupLines(gs, 124));
    GroupsBack(gs, 124);
    assert FirstGroups(gs, 124) == gs;
  }

  /** The whole database comes back exactly when each table has an entry or is in memory as it was saved. */
  lemma LoadOfSaved(db: Db, before: Db)
    requires DbOk(db) && TextFits(Saved(db))
    ensures Load(before, Saved(db)) == Db(Normal(db.users, 124), db.groups) <==>
      && (Occupied(db.users) || before.users == Normal(db.users, 124))
      && (Occupied(db.groups) || before.groups == db.groups)
  {
    hide Load, Saved, Normal, DbOk;
    LoadUsers(db, before);
    LoadGroups(db, before);
  }

  // ---------------------------------------------------------------- the printed lines

  const PasswdFormat := "%s:x:%d:%d::%s:%s\n"
  const ShadowFormat := "%s:%s:0:0:99999:7:::\n"
  const GroupFormat := "%s:x:%d:%d\n"

  /** What a format prints is these fields as a line. */
  ghost predicate Prints(fmt: string, args: seq<Arg>, fields: seq<string>) {
    fields != [] && Format(fmt, args) == Join(fields) + "\n"
  }

  lemma JoinStep(a: string, rest: seq<string>)
    requires rest != []
    ensures Join([a] + rest) == a + ":" + Join(rest)
  {
  }

  /** A string, a colon, and the rest. */
  lemma PrintsString(fmt: string, args: seq<Arg>, fields: seq<string>, x: string)
    requires Prints(fmt, args, fields)
    ensures Prints("%s" + (":" + fmt), [S(x)] + args, [x] + fields)
  {
  }

  lemma PrintsNumber(fmt: string, args: seq<Arg>, fields: seq<string>, v: nat)
    requires Prints(fmt, args, fields)
    ensures Prints("%d" + (":" + fmt), [D(v)] + args, [Digits(v)] + fields)
  {
    hide Format;
    FormatNumber(":" + fmt, v, args);
    FormatLiteral(":", fmt, args);
    JoinStep(Digits(v), fields);
    hide Join, Digits;
    Nest(Digits(v), ":", Join(fields));
  }

  /** A fixed field, a colon, and the rest. */
  lemma PrintsFixed(fmt: string, args: seq<Arg>, fields: seq<string>, x: string)
    requires Prints(fmt, args, fields) && '%' !in x
    ensures Prints(x + (":" + fmt), args, [x] + fields)
  {
    hide Format;
    FormatLiteral(x, ":" + fmt, args);
    FormatLiteral(":", fmt, args);
    JoinStep(x, fields);
    hide Join;
    Nest(x, ":", Join(fields));
  }

  lemma Nest(x: string, c: string, rest: string)
    ensures x + (c + (rest + "\n")) == x + c + rest + "\n"
  {
  }

  lemma PrintsLast(x: string)
    ensures Prints("%s" + "\n", [S(x)], [x])
  {
    assert [S(x)] == [S(x)] + [];
    FormatString("\n", x, []);
    EndFormat();
  }

  lemma PrintsLastNumber(v: nat)
    ensures Prints("%d" + "\n", [D(v)], [Digits(v)])
  {
    assert [D(v)] == [D(v)] + [];
    FormatNumber("\n", v, []);
    EndFormat();
  }

  lemma PrintsEnd(args: seq<Arg>)
    ensures Prints("\n", args, [""])
  {
  }

  lemma EndFormat()
    ensures Format("\n", []) == "\n"
  {
  }

  lemma PasswdPrinted(uid: nat, u: User)
    ensures Prints(PasswdFormat, [S(u.name), D(uid), D(u.gid), S(u.home), S(u.shell)], PasswdFields(uid, u))
  {
    hide Prints, Digits;
    var f6 := "%s" + "\n";
    PrintsLast(u.shell);
    var f5 := "%s" + (":" + f6);
    PrintsString(f6, [S(u.shell)], [u.shell], u.home);
    var a5, l5 := [S(u.home)] + [S(u.shell)], [u.home] + [u.shell];
    var f4 := "" + (":" + f5);
    PrintsFixed(f5, a5, l5, "");
    var f3 := "%d" + (":" + f4);
    PrintsNumber(f4, a5, [""] + l5, u.gid);
    var a3, l3 := [D(u.gid)] + a5, [Digits(u.gid)] + ([""] + l5);
    var f2 := "%d" + (":" + f3);
    PrintsNumber(f3, a3, l3, uid);
    var a2, l2 := [D(uid)] + a3, [Digits(uid)] + l3;
    var f1 := "x" + (":" + f2);
    PrintsFixed(f2, a2, l2, "x");
    PrintsString(f1, a2, ["x"] + l2, u.name);
    assert "%s" + (":" + f1) == PasswdFormat;
    assert [S(u.name)] + a2 == [S(u.name), D(uid), D(u.gid), S(u.home), S(u.shell)];
    assert [u.name] + (["x"] + l2) == PasswdFields(uid, u);
  }

  lemma ShadowPrinted(u: User)
    ensures Prints(ShadowFormat, [S(u.name), S(StoredHash(u))], ShadowFields(u))
  {
    hide Prints, StoredHash;
    PrintsEnd([]);
    PrintsFixed("\n", [], [""], "");
    PrintsFixed("" + (":" + "\n"), [], [""] + [""], "");
    var f5, l5 := "" + (":" + ("" + (":" + "\n"))), [""] + ([""] + [""]);
    PrintsFixed(f5, [], l5, "7");
    PrintsFixed("7" + (":" + f5), [], ["7"] + l5, "99999");
    var f3, l3 := "99999" + (":" + ("7" + (":" + f5))), ["99999"] + (["7"] + l5);
    PrintsFixed(f3, [], l3, "0");
    PrintsFixed("0" + (":" + f3), [], ["0"] + l3, "0");
    var f1, l1 := "0" + (":" + ("0" + (":" + f3))), ["0"] + (["0"] + l3);
    PrintsString(f1, [], l1, StoredHash(u));
    var f0, a0, l0 := "%s" + (":" + f1), [S(StoredHash(u))] + [], [StoredHash(u)] + l1;
    PrintsString(f0, a0, l0, u.name);
    assert "%s" + (":" + f0) == ShadowFormat;
    assert [S(u.name)] + a0 == [S(u.name), S(StoredHash(u))];
    assert [u.name] + l0 == ShadowFields(u);
  }

  lemma GroupPrinted(gid: nat, g: Group)
    ensures Prints(GroupFormat, [S(g.name), D(gid), D(g.perms)], GroupFields(gid, g))
  {
    hide Prints, Digits;
    var f3 := "%d" + "\n";
    PrintsLastNumber(g.perms);
    PrintsNumber(f3, [D(g.perms)], [Digits(g.perms)], gid);
    var f2, a2, l2 := "%d" + (":" + f3), [D(gid)] + [D(g.perms)], [Digits(gid)] + [Digits(g.perms)];
    PrintsFixed(f2, a2, l2, "x");
    var f1 := "x" + (":" + f2);
    PrintsString(f1, a2, ["x"] + l2, g.name);
    assert "%s" + (":" + f1) == GroupFormat;
    assert [S(g.name)] + a2 == [S(g.name), D(gid), D(g.perms)];
    assert [g.name] + (["x"] + l2) == GroupFields(gid, g);
  }
}
