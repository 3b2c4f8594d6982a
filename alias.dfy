/** `Alias`: the table of command aliases, a dictionary updated in place. */
module Aliases {
  import opened Common
  import opened Dict

  class AliasTable {
    /** Alias name to the command it stands for, in insertion order. */
    var aliases: Table<string>

    predicate Valid()
      reads this
    {
      Distinct(aliases)
    }

    constructor ()
      ensures aliases == [] && Valid()
    {
      aliases := [];
    }

    /** `alias_add(alias, command)`: the alias now names the command; an
        existing alias is overwritten in place and no other entry changes. */
    method Add(alias: string, command: string)
      requires Valid()
      modifies this
      ensures aliases == Put(old(aliases), alias, command) && Valid()
      ensures Get(alias) == Some(command)
      ensures forall other :: other != alias ==> Get(other) == old(Get(other))
    {
      PutDistinct(aliases, alias, command);
      forall other | other != alias
        ensures Find(Put(aliases, alias, command), other) == Find(aliases, other)
      {
        FindPut(aliases, alias, command, other);
      }
      FindPut(aliases, alias, command, alias);
      aliases := Put(aliases, alias, command);
    }

    /** `alias_remove(alias)`: the alias is gone, no other entry changes, and
        removing an absent alias changes nothing. */
    method Remove(alias: string)
      requires Valid()
      modifies this
      ensures aliases == Dict.Remove(old(aliases), alias) && Valid()
      ensures Get(alias) == None
      ensures forall other :: other != alias ==> Get(other) == old(Get(other))
      ensures old(Get(alias)).None? ==> aliases == old(aliases)
    {
      RemoveDistinct(aliases, alias);
      forall other | other != alias
        ensures Find(Dict.Remove(aliases, alias), other) == Find(aliases, other)
      {
        FindRemove(aliases, alias, other);
      }
      FindRemove(aliases, alias, alias);
      if Find(aliases, alias).None? {
        RemoveAbsent(aliases, alias);
      }
      aliases := Dict.Remove(aliases, alias);
    }

    /** `alias_list()`: the live table itself, in insertion order. */
    method List() returns (table: Table<string>)
      ensures table == aliases
    {
      table := aliases;
    }

    /** `alias_get(alias)`: the command, or None for an unknown alias. */
    function Get(alias: string): (r: Option<string>)
      reads this
      ensures r.None? <==> alias !in Keys(aliases)
      ensures r.Some? ==> (alias, r.value) in aliases
    {
      Find(aliases, alias)
    }
  }
}
