/** Changing staff access: the guarded command, its audit trail, and what serial runs of it keep. */
module Access {
  import opened Wrappers

  type Id = nat

  datatype Role = Customer | Admin | Technician

  datatype User = User(role: Role, active: bool)

  type Users = map<Id, User>

  datatype Update = Update(role: Option<Role>, active: Option<bool>)

  datatype Error = UserNotFound | UnsafeSelfChange | LastAdmin

  /** A `user.access_changed` audit row. */
  datatype Entry = Entry(actor: Id, target: Id, before: User, after: User)

  datatype Result = Changed(users: Users, entry: Entry) | Refused(error: Error)

  predicate ActiveAdmin(users: Users, id: Id) {
    id in users && users[id] == User(Admin, true)
  }

  function ActiveAdmins(users: Users): set<Id> {
    set id | id in users && ActiveAdmin(users, id)
  }

  predicate TakesAdminAway(update: Update) {
    (update.role.Some? && update.role.value != Admin) || update.active == Some(false)
  }

  function Updated(user: User, update: Update): User {
    User(if update.role.Some? then update.role.value else user.role,
         if update.active.Some? then update.active.value else user.active)
  }

  function ChangeAccess(users: Users, actor: Id, target: Id, update: Update): Result {
    if target !in users then Refused(UserNotFound)
    else if target == actor && TakesAdminAway(update) then Refused(UnsafeSelfChange)
    else if users[target].role == Admin && TakesAdminAway(update) && |ActiveAdmins(users)| <= 1 then Refused(LastAdmin)
    else
      var after := Updated(users[target], update);
      Changed(users[target := after], Entry(actor, target, users[target], after))
  }

  // ---------- what the command does ----------

  /** The command changes exactly the role and the flag it names, of exactly the target, and records the user before and
      after; nobody takes their own administration away, and of the others' not the last. */
  lemma ChangesExactlyWhatItNames(users: Users, actor: Id, target: Id, update: Update)
    ensures var result := ChangeAccess(users, actor, target, update);
            var demotes := (update.role.Some? && update.role != Some(Admin)) || update.active == Some(false);
            var admins := set id | id in users && users[id].role == Admin && users[id].active;
            if target !in users then result == Refused(UserNotFound)
            else if target == actor && demotes then result == Refused(UnsafeSelfChange)
            else if users[target].role == Admin && demotes && |admins| <= 1 then result == Refused(LastAdmin)
            else
              && result.Changed? && result.users.Keys == users.Keys
              && (forall id :: id in users && id != target ==> result.users[id] == users[id])
              && result.users[target].role == (match update.role case None => users[target].role case Some(role) => role)
              && result.users[target].active == (match update.active case None => users[target].active case Some(flag) => flag)
              && result.entry == Entry(actor, target, users[target], result.users[target])
  {
    assert ActiveAdmins(users) == set id | id in users && users[id].role == Admin && users[id].active;
  }

  /** An active administrator's command on themselves leaves them one, or is refused as unsafe. */
  lemma OwnAdministrationStays(users: Users, actor: Id, update: Update)
    requires ActiveAdmin(users, actor)
    ensures match ChangeAccess(users, actor, actor, update)
            case Changed(after, _) => ActiveAdmin(after, actor)
            case Refused(error) => error == UnsafeSelfChange
  {
  }

  // ---------- the last administrator ----------

  lemma UpdatedAdmins(users: Users, target: Id, after: User)
    requires target in users
    ensures ActiveAdmins(users[target := after]) ==
            if after == User(Admin, true) then ActiveAdmins(users) + {target} else ActiveAdmins(users) - {target}
  {
  }

  /** An accepted change leaves an active administrator if there was one. */
  lemma ChangeKeepsAnAdmin(users: Users, actor: Id, target: Id, update: Update)
    requires ActiveAdmins(users) != {} && ChangeAccess(users, actor, target, update).Changed?
    ensures ActiveAdmins(ChangeAccess(users, actor, target, update).users) != {}
  {
    var after := Updated(users[target], update);
    UpdatedAdmins(users, target, after);
    assert ActiveAdmins(users) <= {target} ==> |ActiveAdmins(users)| <= |{target}| by {
      if ActiveAdmins(users) <= {target} {
        assert ActiveAdmins(users) == {target} || ActiveAdmins(users) == {};
      }
    }
  }

  /** For an active administrator other than the actor, the command is refused as "last" exactly when the change would
      have left no active administrator. */
  lemma LastAdminRefusalIsExact(users: Users, actor: Id, target: Id, update: Update)
    requires ActiveAdmin(users, target) && target != actor
    ensures ChangeAccess(users, actor, target, update) == Refused(LastAdmin) <==>
            ActiveAdmins(users[target := Updated(users[target], update)]) == {}
  {
    var after := Updated(users[target], update);
    UpdatedAdmins(users, target, after);
    assert target in ActiveAdmins(users);
    if |ActiveAdmins(users)| <= 1 {
      assert |ActiveAdmins(users) - {target}| == 0;
    }
  }

  /** For an inactive administrator the same refusal protects nobody. Taking the role or the flag away costs no active
      administrator, and is refused although one would remain exactly when there is a single one. */
  lemma InactiveAdminRefusal(users: Users, actor: Id, target: Id, update: Update)
    requires target in users && users[target] == User(Admin, false) && target != actor && TakesAdminAway(update)
    ensures ActiveAdmins(users[target := Updated(users[target], update)]) == ActiveAdmins(users)
    ensures ChangeAccess(users, actor, target, update) == Refused(LastAdmin) && ActiveAdmins(users) != {} <==>
            |ActiveAdmins(users)| == 1
  {
    UpdatedAdmins(users, target, Updated(users[target], update));
    assert target !in ActiveAdmins(users);
  }

  /** Such a refusal: the one active administrator cannot demote an inactive one. */
  lemma RefusedForNobody()
    ensures var users := map[0 := User(Admin, true), 1 := User(Admin, false)];
            && ChangeAccess(users, 0, 1, Update(Some(Customer), None)) == Refused(LastAdmin)
            && ActiveAdmins(users[1 := User(Customer, false)]) == {0}
  {
    var users := map[0 := User(Admin, true), 1 := User(Admin, false)];
    assert ActiveAdmins(users) == {0};
    InactiveAdminRefusal(users, 0, 1, Update(Some(Customer), None));
  }

  // ---------- runs and the audit trail ----------

  datatype Command = Command(actor: Id, target: Id, update: Update)

  datatype State = State(users: Users, audit: seq<Entry>)

  /** A command that commits changes the users and appends its entry; a refused one rolls back. */
  function Execute(s: State, c: Command): State {
    match ChangeAccess(s.users, c.actor, c.target, c.update)
    case Changed(users, entry) => State(users, s.audit + [entry])
    case Refused(_) => s
  }

  function ExecuteAll(s: State, commands: seq<Command>): State {
    if commands == [] then s
    else Execute(ExecuteAll(s, commands[..|commands| - 1]), commands[|commands| - 1])
  }

  lemma {:induction false} AnAdminRemains(s: State, commands: seq<Command>)
    requires ActiveAdmins(s.users) != {}
    ensures ActiveAdmins(ExecuteAll(s, commands).users) != {}
  {
    if commands != [] {
      var before := ExecuteAll(s, commands[..|commands| - 1]);
      var c := commands[|commands| - 1];
      AnAdminRemains(s, commands[..|commands| - 1]);
      if ChangeAccess(before.users, c.actor, c.target, c.update).Changed? {
        ChangeKeepsAnAdmin(before.users, c.actor, c.target, c.update);
      }
    }
  }

  /** The users a reader of the audit log reconstructs from the initial ones. */
  function Replay(initial: Users, audit: seq<Entry>): Users {
    if audit == [] then initial
    else Replay(initial, audit[..|audit| - 1])[audit[|audit| - 1].target := audit[|audit| - 1].after]
  }

  /** The entry at `n` records as "before" what the earlier entries reconstruct. */
  ghost predicate Matches(initial: Users, audit: seq<Entry>, n: nat) {
    n < |audit| ==>
      && audit[n].target in Replay(initial, audit[..n])
      && audit[n].before == Replay(initial, audit[..n])[audit[n].target]
  }

  /** Replaying the audit entries from the initial users reproduces every user's access at every moment, and each
      entry's "before" is what the entries before it left. */
  lemma {:induction false} AuditReproducesAccess(initial: Users, commands: seq<Command>)
    ensures var t := ExecuteAll(State(initial, []), commands);
            && Replay(initial, t.audit) == t.users
            && forall n: nat :: Matches(initial, t.audit, n)
  {
    if commands != [] {
      var s := ExecuteAll(State(initial, []), commands[..|commands| - 1]);
      var c := commands[|commands| - 1];
      AuditReproducesAccess(initial, commands[..|commands| - 1]);
      var t := Execute(s, c);
      if t.audit != s.audit {
        assert t.audit[..|s.audit|] == s.audit;
        forall n: nat ensures Matches(initial, t.audit, n) {
          if n < |s.audit| {
            assert t.audit[..n] == s.audit[..n];
            assert Matches(initial, s.audit, n);
          }
        }
      }
    }
  }
}
