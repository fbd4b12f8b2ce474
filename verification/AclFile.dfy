/** Loading the ACL file (ACLLoadFromFile in acl.c): every line is tried on a
    fake user first, and either all lines take effect or none. */
module AclFile {
  import opened Acl
  import opened AclUser

  const DEFAULT := "default"

  /** A line of the file, split into rules. */
  datatype Line = Blank | NoUserKeyword | BadName | UserLine(name: string, rules: seq<Rule>)

  predicate Good(line: Line, table: Table, hash: string -> string) {
    line.Blank? || (line.UserLine? && ApplyAll(Fresh(), line.rules, table, hash).Ok?)
  }

  /** The rules of the default user: +@all ~* on nopass. */
  function DefaultUser(): User {
    Fresh().(bits := AllBits(), allcommands := true, allkeys := true, enabled := true, disabled := false,
      nopass := true)
  }

  /** The users a good file describes: a name that comes again starts anew. */
  function FileUsers(lines: seq<Line>, table: Table, hash: string -> string): map<string, User>
    requires forall i | 0 <= i < |lines| :: Good(lines[i], table, hash)
  {
    if lines == [] then map[DEFAULT := DefaultUser()]
    else
      var before, line := FileUsers(lines[..|lines| - 1], table, hash), lines[|lines| - 1];
      assert Good(line, table, hash);
      Entered(before, line, table, hash)
  }

  function Entered(users: map<string, User>, line: Line, table: Table, hash: string -> string): map<string, User>
    requires Good(line, table, hash)
  {
    if line.Blank? then users else users[line.name := ApplyAll(Fresh(), line.rules, table, hash).user]
  }

  lemma {:induction false} OneLineMore(lines: seq<Line>, i: nat, table: Table, hash: string -> string)
    requires i < |lines| && forall k | 0 <= k <= i :: Good(lines[k], table, hash)
    ensures FileUsers(lines[..i + 1], table, hash) == Entered(FileUsers(lines[..i], table, hash), lines[i], table, hash)
  {
    assert lines[..i + 1][..i] == lines[..i];
  }

  ghost function Values(users: map<string, UserRecord>): map<string, User>
    reads set n | n in users :: users[n]
  {
    map n | n in users :: users[n].Value()
  }

  ghost predicate Separate(users: map<string, UserRecord>) {
    forall n, m | n in users && m in users && n != m :: users[n] != users[m]
  }

  lemma {:induction false} SameValues(users: map<string, UserRecord>, values: map<string, User>)
    requires users.Keys == values.Keys && forall n | n in users :: users[n].Value() == values[n]
    ensures Values(users) == values
  {
  }

  class Registry {
    var users: map<string, UserRecord>
    const defaultUser: UserRecord

    ghost predicate Valid()
      reads this
    {
      DEFAULT in users && users[DEFAULT] == defaultUser && Separate(users)
    }

    constructor ()
      ensures Valid() && fresh(defaultUser) && users.Keys == {DEFAULT}
    {
      var u := new UserRecord();
      defaultUser := u;
      users := map[DEFAULT := u];
    }

    /** All or nothing: with an error the table and the default user are as
        before; without one the table holds exactly what the file says, and the
        default user is still the same record. */
    method LoadFromFile(lines: seq<Line>, table: Table, hash: string -> string) returns (errors: nat)
      requires Valid() && Sound(table) && Hashes(hash)
      modifies this, defaultUser
      ensures Valid()
      ensures errors == 0 <==> forall i | 0 <= i < |lines| :: Good(lines[i], table, hash)
      ensures errors > 0 ==> users == old(users) && defaultUser.Value() == old(defaultUser.Value())
      ensures errors == 0 ==> Values(users) == FileUsers(lines, table, hash)
    {
      var loaded;
      errors, loaded := LoadLines(lines, table, hash);
      if errors == 0 {
        DefaultInFile(lines, table, hash);
        defaultUser.CopyFrom(loaded[DEFAULT], table);
        users := loaded[DEFAULT := defaultUser];
      }
    }

    /** The new table, built aside. */
    method LoadLines(lines: seq<Line>, table: Table, hash: string -> string)
      returns (errors: nat, loaded: map<string, UserRecord>)
      requires Sound(table) && Hashes(hash)
      ensures errors == 0 <==> forall i | 0 <= i < |lines| :: Good(lines[i], table, hash)
      ensures Separate(loaded) && forall n | n in loaded :: fresh(loaded[n])
      ensures errors == 0 ==> Values(loaded) == FileUsers(lines, table, hash)
    {
      var fake := new UserRecord();
      var first := NewDefault();
      loaded := map[DEFAULT := first];
      errors := 0;
      for i := 0 to |lines|
        invariant fresh(fake) && Separate(loaded) && forall n | n in loaded :: fresh(loaded[n]) && loaded[n] != fake
        invariant errors == 0 <==> forall k | 0 <= k < i :: Good(lines[k], table, hash)
        invariant errors == 0 ==> Values(loaded) == FileUsers(lines[..i], table, hash)
      {
        var bad, more := LoadLine(lines[i], fake, loaded, errors == 0, table, hash);
        errors, loaded := errors + bad, more;
        if errors == 0 {
          OneLineMore(lines, i, table, hash);
        }
      }
      assert lines[..|lines|] == lines;
    }

    /** One line: how many errors it has, and the table with its user, entered as
        long as there were none before. */
    method LoadLine(line: Line, fake: UserRecord, loaded: map<string, UserRecord>, clean: bool, table: Table,
                    hash: string -> string)
      returns (bad: nat, more: map<string, UserRecord>)
      requires Sound(table) && Separate(loaded) && forall n | n in loaded :: loaded[n] != fake
      modifies fake, if line.UserLine? && line.name in loaded then {loaded[line.name]} else {}
      ensures bad == 0 <==> Good(line, table, hash)
      ensures Separate(more) && forall n | n in more :: fresh(more[n]) || (n in loaded && more[n] == loaded[n])
      ensures clean && bad == 0 ==>
                Values(more) == Entered(old(Values(loaded)), line, table, hash)
    {
      bad, more := 0, loaded;
      match line {
        case Blank =>
        case NoUserKeyword => bad := 1;
        case BadName => bad := 1;
        case UserLine(name, rules) =>
          bad := Validate(fake, rules, table, hash);
          if clean && bad == 0 {
            more := EnterLine(loaded, name, rules, table, hash);
          }
      }
    }

    /** ACLInitDefaultUser. */
    method NewDefault() returns (u: UserRecord)
      ensures fresh(u) && u.Value() == DefaultUser()
    {
      u := new UserRecord();
      u.bits, u.allcommands := AllBits(), true;
      u.allkeys, u.enabled, u.disabled, u.nopass := true, true, false, true;
    }

    /** How many rules of a line the fake user refuses; after a refusal the rest
        is still tried. */
    method Validate(fake: UserRecord, rules: seq<Rule>, table: Table, hash: string -> string) returns (bad: nat)
      requires Sound(table)
      modifies fake
      ensures bad == 0 <==> ApplyAll(Fresh(), rules, table, hash).Ok?
    {
      var ok := fake.SetUser(Reset, table, hash);
      bad := 0;
      for j := 0 to |rules|
        invariant bad == 0 <==> ApplyAll(Fresh(), rules[..j], table, hash).Ok?
        invariant bad == 0 ==> fake.Value() == ApplyAll(Fresh(), rules[..j], table, hash).user
      {
        assert rules[..j + 1][..j] == rules[..j];
        ok := fake.SetUser(rules[j], table, hash);
        if !ok {
          bad := bad + 1;
        }
      }
      assert rules[..|rules|] == rules;
    }

    method EnterLine(loaded: map<string, UserRecord>, name: string, rules: seq<Rule>, table: Table,
                     hash: string -> string)
      returns (more: map<string, UserRecord>)
      requires Sound(table) && Separate(loaded) && ApplyAll(Fresh(), rules, table, hash).Ok?
      modifies if name in loaded then {loaded[name]} else {}
      ensures Separate(more)
      ensures forall n | n in more :: fresh(more[n]) || (n in loaded && more[n] == loaded[n])
      ensures Values(more) == old(Values(loaded))[name := ApplyAll(Fresh(), rules, table, hash).user]
    {
      ghost var target := Values(loaded)[name := ApplyAll(Fresh(), rules, table, hash).user];
      more := ApplyLine(loaded, name, rules, table, hash);
      SameValues(more, target);
    }

    /** The second application: its assertion holds for every rule. */
    method ApplyLine(loaded: map<string, UserRecord>, name: string, rules: seq<Rule>, table: Table,
                     hash: string -> string)
      returns (more: map<string, UserRecord>)
      requires Sound(table) && Separate(loaded) && ApplyAll(Fresh(), rules, table, hash).Ok?
      modifies if name in loaded then {loaded[name]} else {}
      ensures Separate(more) && more.Keys == loaded.Keys + {name}
      ensures name in loaded ==> more == loaded
      ensures name !in loaded ==> fresh(more[name]) && forall n | n in loaded :: more[n] == loaded[n]
      ensures more[name].Value() == ApplyAll(Fresh(), rules, table, hash).user
      ensures forall n | n in loaded && n != name :: more[n] == loaded[n] && more[n].Value() == old(loaded[n].Value())
    {
      if name in loaded {
        more := loaded;
        Reapply(loaded[name], rules, table, hash);
      } else {
        var u := new UserRecord();
        ApplyRules(u, rules, table, hash);
        more := loaded[name := u];
      }
    }

    method Reapply(u: UserRecord, rules: seq<Rule>, table: Table, hash: string -> string)
      requires Sound(table) && ApplyAll(Fresh(), rules, table, hash).Ok?
      modifies u
      ensures u.Value() == ApplyAll(Fresh(), rules, table, hash).user
    {
      var ok := u.SetUser(Reset, table, hash);
      ApplyRules(u, rules, table, hash);
    }

    method ApplyRules(u: UserRecord, rules: seq<Rule>, table: Table, hash: string -> string)
      requires Sound(table) && u.Value() == Fresh() && ApplyAll(Fresh(), rules, table, hash).Ok?
      modifies u
      ensures u.Value() == ApplyAll(Fresh(), rules, table, hash).user
    {
      for j := 0 to |rules|
        invariant ApplyAll(Fresh(), rules[..j], table, hash) == Ok(u.Value())
      {
        assert rules[..j + 1][..j] == rules[..j];
        PrefixApplies(rules, j + 1, table, hash);
        var ok := u.SetUser(rules[j], table, hash);
        assert ok;
      }
      assert rules[..|rules|] == rules;
    }
  }

  lemma {:induction false} PrefixApplies(rules: seq<Rule>, j: nat, table: Table, hash: string -> string)
    requires j <= |rules| && ApplyAll(Fresh(), rules, table, hash).Ok?
    ensures ApplyAll(Fresh(), rules[..j], table, hash).Ok?
  {
    assert rules == rules[..j] + rules[j..];
    ApplyAllConcat(Fresh(), rules[..j], rules[j..], table, hash);
  }

  /** A good file always describes a default user, and its users satisfy the invariant. */
  lemma {:induction false} DefaultInFile(lines: seq<Line>, table: Table, hash: string -> string)
    requires Sound(table) && Hashes(hash) && (forall i | 0 <= i < |lines| :: Good(lines[i], table, hash))
    ensures DEFAULT in FileUsers(lines, table, hash)
    ensures forall n | n in FileUsers(lines, table, hash) :: Inv(FileUsers(lines, table, hash)[n], table)
  {
    if lines != [] {
      DefaultInFile(lines[..|lines| - 1], table, hash);
      if lines[|lines| - 1].UserLine? {
        ReachableInv(lines[|lines| - 1].rules, table, hash);
      }
    } else {
      assert IsBit(RESERVED);
    }
  }
}
