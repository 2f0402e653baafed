/**
 * The uniqueness rule on list names
 * (alembic/versions/add_case_insensitive_list_name_constraint.py).
 * The initial schema makes (user_id, name) unique; `upgrade` replaces that
 * constraint by a unique index on (user_id, LOWER(name)) and `downgrade`
 * puts the exact rule back.
 *
 * LOWER is modelled on ASCII letters only; PostgreSQL's locale-dependent
 * case folding of other letters is not.
 */
module ListNameIndex {
  import opened Models

  function LowerChar(c: char): char {
    if 'A' <= c <= 'Z' then (c as int + 32) as char else c
  }

  /** LOWER(name): the name with each upper-case letter folded. */
  function Lower(s: string): (r: string)
    ensures |r| == |s|
    ensures forall i :: 0 <= i < |s| ==> r[i] == LowerChar(s[i])
  {
    if s == [] then [] else [LowerChar(s[0])] + Lower(s[1..])
  }

  /** Folding twice is folding once. */
  lemma LowerIdempotent(s: string)
    ensures Lower(Lower(s)) == Lower(s)
  {
    var once := Lower(s);
    var twice := Lower(once);
    assert forall i :: 0 <= i < |s| ==> twice[i] == once[i];
  }

  /** Which of the two rules is in force. */
  datatype NameRule = ExactName | LowerName

  /** When two names of one user's lists collide under a rule. */
  predicate SameName(rule: NameRule, a: string, b: string) {
    match rule
    case ExactName => a == b
    case LowerName => Lower(a) == Lower(b)
  }

  /** No user holds two lists whose names collide under the rule. */
  predicate ListNamesUnique(lists: map<Id, List>, rule: NameRule) {
    forall a, b :: a in lists && b in lists && a != b && lists[a].userId == lists[b].userId ==>
      !SameName(rule, lists[a].name, lists[b].name)
  }

  /** A list of the user collides with `name` under the rule. */
  predicate NameClash(lists: map<Id, List>, userId: Id, name: string, rule: NameRule) {
    exists l :: l in lists && lists[l].userId == userId && SameName(rule, lists[l].name, name)
  }

  /** The lists a query `user_id == u AND name == name` finds. */
  function ListsNamed(lists: map<Id, List>, userId: Id, name: string): (r: set<Id>)
    ensures r == {} <==> !NameClash(lists, userId, name, ExactName)
  {
    var r := set l | l in lists && lists[l].userId == userId && lists[l].name == name;
    assert forall l :: l in lists && lists[l].userId == userId && SameName(ExactName, lists[l].name, name) ==> l in r;
    r
  }

  /** Names equal letter for letter are equal after folding. */
  lemma ExactCollisionIsLowerCollision(a: string, b: string)
    requires SameName(ExactName, a, b)
    ensures SameName(LowerName, a, b)
  {
  }

  /** A name that clashes exactly clashes after folding too. */
  lemma ExactClashIsLowerClash(lists: map<Id, List>, userId: Id, name: string)
    ensures NameClash(lists, userId, name, ExactName) ==> NameClash(lists, userId, name, LowerName)
  {
    if NameClash(lists, userId, name, ExactName) {
      var l :| l in lists && lists[l].userId == userId && SameName(ExactName, lists[l].name, name);
      ExactCollisionIsLowerCollision(lists[l].name, name);
    }
  }

  /** The index `upgrade` adds is strictly stronger than the constraint it
      drops: every state it admits the old rule admits too, which is also
      why `downgrade` can always restore the old constraint. */
  lemma LowerRuleImpliesExactRule(lists: map<Id, List>)
    requires ListNamesUnique(lists, LowerName)
    ensures ListNamesUnique(lists, ExactName)
  {
    forall a, b | a in lists && b in lists && a != b && lists[a].userId == lists[b].userId
      ensures !SameName(ExactName, lists[a].name, lists[b].name)
    {
      if SameName(ExactName, lists[a].name, lists[b].name) {
        ExactCollisionIsLowerCollision(lists[a].name, lists[b].name);
      }
    }
  }

  /** ... and strictly so: two lists "Pizza" and "pizza" of one user pass
      the old rule but not the new one. */
  lemma ExactRuleAdmitsCaseVariants()
    ensures exists lists :: ListNamesUnique(lists, ExactName) && !ListNamesUnique(lists, LowerName)
  {
    var lists := map[0 := List(0, "Pizza"), 1 := List(0, "pizza")];
    assert Lower("Pizza") == Lower("pizza") by {
      assert Lower("Pizza")[0] == 'p';
    }
    assert !ListNamesUnique(lists, LowerName) by {
      assert lists[0].userId == lists[1].userId;
    }
  }

  /** Under either rule a user has at most one list of a given exact name,
      so a lookup by (user, name) finds at most one row. */
  lemma AtMostOneNamed(lists: map<Id, List>, rule: NameRule, userId: Id, name: string, a: Id, b: Id)
    requires ListNamesUnique(lists, rule)
    requires a in ListsNamed(lists, userId, name) && b in ListsNamed(lists, userId, name)
    ensures a == b
  {
    if a != b {
      ExactCollisionIsLowerCollision(lists[a].name, lists[b].name);
    }
  }

  /** Adding a list keeps the rule exactly when the user has no list whose
      name collides with the new one. */
  lemma AddListKeepsNamesUnique(lists: map<Id, List>, id: Id, row: List, rule: NameRule)
    requires id !in lists && ListNamesUnique(lists, rule)
    ensures ListNamesUnique(lists[id := row], rule) <==> !NameClash(lists, row.userId, row.name, rule)
  {
    var after := lists[id := row];
    if NameClash(lists, row.userId, row.name, rule) {
      var l :| l in lists && lists[l].userId == row.userId && SameName(rule, lists[l].name, row.name);
      assert l in after && id in after && l != id && after[l].userId == after[id].userId;
      assert SameName(rule, after[l].name, after[id].name) by {
        if rule == LowerName { assert Lower(after[l].name) == Lower(after[id].name); }
      }
    } else {
      forall a, b | a in after && b in after && a != b && after[a].userId == after[b].userId
        ensures !SameName(rule, after[a].name, after[b].name)
      {
        if a == id {
          assert !SameName(rule, lists[b].name, row.name);
        } else if b == id {
          assert !SameName(rule, lists[a].name, row.name);
        }
      }
    }
  }

  /** Removing lists never breaks the rule. */
  lemma SubmapKeepsNamesUnique(lists: map<Id, List>, smaller: map<Id, List>, rule: NameRule)
    requires ListNamesUnique(lists, rule)
    requires forall k :: k in smaller ==> k in lists && smaller[k] == lists[k]
    ensures ListNamesUnique(smaller, rule)
  {
  }
}
