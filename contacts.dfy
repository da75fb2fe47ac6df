/**
 * The contact list (src/app/components/contacts/contacts.component.ts):
 * contacts bucketed by the upper-cased first letter of their last name, the
 * sorted list of bucket keys, the selected contact, and the in-place
 * replacement of an edited contact.
 */
module ContactsComponent {
  import opened Seqs
  import opened Ascii
  import opened Sorting
  import opened TaskModel

  /** `contact.lastname.charAt(0).toUpperCase()`; an empty last name gives "". */
  function GroupKey(c: Contact): (k: string)
    ensures |k| <= 1
    ensures k == "" <==> c.lastname == ""
    ensures k != "" ==> k[0] == UpperChar(c.lastname[0]) && !IsLower(k[0])
  {
    if c.lastname == "" then "" else [UpperChar(c.lastname[0])]
  }

  /** Holds of the contacts that belong in the group keyed `k`. */
  function HasKey(k: string): Contact -> bool {
    (c: Contact) => GroupKey(c) == k
  }

  /** The group keyed `k`: the contacts with that key, in input order. */
  function Group(cs: seq<Contact>, k: string): seq<Contact> {
    Filter(cs, HasKey(k))
  }

  /** The keys some contact of `cs` has. */
  ghost function KeysOf(cs: seq<Contact>): set<string> {
    set j | 0 <= j < |cs| :: GroupKey(cs[j])
  }

  /** The comparator of the default `Array.prototype.sort` on strings. */
  function KeyLe(): (string, string) -> bool {
    (a: string, b: string) => StrLe(a, b)
  }

  lemma KeyLeTotalPreorder()
    ensures TotalPreorder(KeyLe())
  {
    forall a: string, b: string ensures KeyLe()(a, b) || KeyLe()(b, a) {
      StrLeTotal(a, b);
    }
    forall a: string, b: string, c: string | KeyLe()(a, b) && KeyLe()(b, c) ensures KeyLe()(a, c) {
      StrLeTransitive(a, b, c);
    }
  }

  /** The number of contacts shown under the keys `keys`, one group after the other. */
  function SizeOfGroups(cs: seq<Contact>, keys: seq<string>): nat {
    if keys == [] then 0 else |Group(cs, keys[0])| + SizeOfGroups(cs, keys[1..])
  }

  /** Dropping the first contact takes it out of every group listed under its key. */
  lemma {:induction false} SizeOfGroupsStep(cs: seq<Contact>, keys: seq<string>)
    requires cs != []
    ensures SizeOfGroups(cs, keys) == SizeOfGroups(cs[1..], keys) + multiset(keys)[GroupKey(cs[0])]
  {
    if keys != [] {
      SizeOfGroupsStep(cs, keys[1..]);
      assert keys == [keys[0]] + keys[1..];
    }
  }

  /**
   * Listing every group once, under distinct keys that cover all contacts,
   * shows every contact exactly once.
   */
  lemma {:induction false} GroupSizesAddUp(cs: seq<Contact>, keys: seq<string>)
    requires Distinct(keys)
    requires KeysOf(cs) <= (set k | k in keys)
    ensures SizeOfGroups(cs, keys) == |cs|
  {
    if cs == [] {
      EmptyGroups(keys);
    } else {
      var k := GroupKey(cs[0]);
      assert k in KeysOf(cs);
      assert KeysOf(cs[1..]) <= KeysOf(cs) by {
        forall x | x in KeysOf(cs[1..]) ensures x in KeysOf(cs) {
          var j :| 0 <= j < |cs[1..]| && GroupKey(cs[1..][j]) == x;
          assert GroupKey(cs[j + 1]) == x;
        }
      }
      GroupSizesAddUp(cs[1..], keys);
      SizeOfGroupsStep(cs, keys);
      DistinctOccursOnce(keys, k);
      assert k in multiset(keys);
    }
  }

  lemma {:induction false} EmptyGroups(keys: seq<string>)
    ensures SizeOfGroups([], keys) == 0
  {
    if keys != [] {
      EmptyGroups(keys[1..]);
    }
  }

  /** Adding one contact to the end of the input adds it to its own group only. */
  lemma GroupExtend(cs: seq<Contact>, c: Contact, k: string)
    ensures Group(cs + [c], k) == if GroupKey(c) == k then Group(cs, k) + [c] else Group(cs, k)
  {
    FilterAppend(cs, [c], HasKey(k));
    assert [c][1..] == [];
  }

  /**
   * `groups` holds, for each key of `prefix`, that key's contacts in order,
   * and `keys` lists the keys once each, in the order they were created.
   */
  ghost predicate Grouped(prefix: seq<Contact>, groups: map<string, seq<Contact>>, keys: seq<string>) {
    && groups.Keys == KeysOf(prefix)
    && (forall k :: k in groups ==> groups[k] == Group(prefix, k))
    && (set k | k in keys) == groups.Keys
    && Distinct(keys)
  }

  /** One turn of the `forEach`, on contact `i`: create the group if missing, then push. */
  lemma GroupedStep(cs: seq<Contact>, i: nat, groups: map<string, seq<Contact>>, keys: seq<string>)
    requires i < |cs|
    requires Grouped(cs[..i], groups, keys)
    ensures var letter := GroupKey(cs[i]);
            var created := if letter in groups then groups else groups[letter := []];
            var keys' := if letter in groups then keys else keys + [letter];
            Grouped(cs[..i + 1], created[letter := created[letter] + [cs[i]]], keys')
  {
    var prefix, c := cs[..i], cs[i];
    assert cs[..i + 1] == prefix + [c];
    if GroupKey(c) in groups {
      KnownKeyStep(prefix, c, groups, keys);
    } else {
      NewKeyStep(prefix, c, groups, keys);
    }
  }

  /** A contact whose group exists joins it; no key is added. */
  lemma KnownKeyStep(prefix: seq<Contact>, c: Contact, groups: map<string, seq<Contact>>, keys: seq<string>)
    requires Grouped(prefix, groups, keys)
    requires GroupKey(c) in groups
    ensures Grouped(prefix + [c], groups[GroupKey(c) := groups[GroupKey(c)] + [c]], keys)
  {
    KnownKeyKeys(prefix, c, groups);
    PushGrouped(prefix, c, groups);
  }

  /** Joining an existing group leaves the set of keys as it was. */
  lemma KnownKeyKeys(prefix: seq<Contact>, c: Contact, groups: map<string, seq<Contact>>)
    requires groups.Keys == KeysOf(prefix)
    requires GroupKey(c) in groups
    ensures groups[GroupKey(c) := groups[GroupKey(c)] + [c]].Keys == KeysOf(prefix + [c])
    ensures groups[GroupKey(c) := groups[GroupKey(c)] + [c]].Keys == groups.Keys
  {
    KeysOfExtend(prefix, c);
  }

  /** A contact with a new key opens a group of its own and appends the key. */
  lemma NewKeyStep(prefix: seq<Contact>, c: Contact, groups: map<string, seq<Contact>>, keys: seq<string>)
    requires Grouped(prefix, groups, keys)
    requires GroupKey(c) !in groups
    ensures var created := groups[GroupKey(c) := []];
            Grouped(prefix + [c], created[GroupKey(c) := created[GroupKey(c)] + [c]], keys + [GroupKey(c)])
  {
    KeysOfExtend(prefix, c);
    NewGroupHoldsContact(prefix, c, groups);
    NewKeyListed(c, groups, keys);
    assert GroupKey(c) !in keys;
    DistinctAppend(keys, GroupKey(c));
  }

  /** A group opened for a new key holds just the contact that opened it. */
  lemma NewGroupHoldsContact(prefix: seq<Contact>, c: Contact, groups: map<string, seq<Contact>>)
    requires groups.Keys == KeysOf(prefix)
    requires forall k :: k in groups ==> groups[k] == Group(prefix, k)
    requires GroupKey(c) !in groups
    ensures var created := groups[GroupKey(c) := []];
            var groups' := created[GroupKey(c) := created[GroupKey(c)] + [c]];
            forall k :: k in groups' ==> groups'[k] == Group(prefix + [c], k)
  {
    var letter := GroupKey(c);
    assert Group(prefix, letter) == [] by {
      forall j | 0 <= j < |prefix| ensures GroupKey(prefix[j]) != letter {
        assert GroupKey(prefix[j]) in KeysOf(prefix);
      }
    }
    PushGrouped(prefix, c, groups[letter := []]);
  }

  /** The key list grows by the new key exactly when the group map does. */
  lemma NewKeyListed(c: Contact, groups: map<string, seq<Contact>>, keys: seq<string>)
    requires (set k | k in keys) == groups.Keys
    ensures var created := groups[GroupKey(c) := []];
            var groups' := created[GroupKey(c) := created[GroupKey(c)] + [c]];
            (set k | k in keys + [GroupKey(c)]) == groups'.Keys
  {
    assert (set k | k in keys + [GroupKey(c)]) == (set k | k in keys) + {GroupKey(c)};
  }

  /** Pushing `c` onto its existing group keeps every group equal to its filter. */
  lemma PushGrouped(prefix: seq<Contact>, c: Contact, groups: map<string, seq<Contact>>)
    requires GroupKey(c) in groups
    requires forall k :: k in groups ==> groups[k] == Group(prefix, k)
    ensures var groups' := groups[GroupKey(c) := groups[GroupKey(c)] + [c]];
            forall k :: k in groups' ==> groups'[k] == Group(prefix + [c], k)
  {
    var groups' := groups[GroupKey(c) := groups[GroupKey(c)] + [c]];
    forall k | k in groups' ensures groups'[k] == Group(prefix + [c], k) {
      GroupExtend(prefix, c, k);
    }
  }

  /** Appending a contact adds its key to the keys that occur. */
  lemma KeysOfExtend(prefix: seq<Contact>, c: Contact)
    ensures KeysOf(prefix + [c]) == KeysOf(prefix) + {GroupKey(c)}
  {
    var extended := prefix + [c];
    assert forall j :: 0 <= j < |prefix| ==> extended[j] == prefix[j];
    assert extended[|prefix|] == c;
  }

  /** What the grouping of all of `cs` gives once its keys are sorted. */
  lemma GroupedResult(cs: seq<Contact>, groups: map<string, seq<Contact>>, keys: seq<string>)
    requires Grouped(cs, groups, keys)
    ensures var letters := SortBy(keys, KeyLe());
            && SortedBy(letters, KeyLe())
            && Distinct(letters)
            && (set k | k in letters) == KeysOf(cs)
            && SizeOfGroups(cs, letters) == |cs|
  {
    SortedKeys(keys);
    GroupSizesAddUp(cs, SortBy(keys, KeyLe()));
  }

  /** Sorting distinct keys gives sorted, distinct keys, and the same ones. */
  lemma SortedKeys(keys: seq<string>)
    requires Distinct(keys)
    ensures SortedBy(SortBy(keys, KeyLe()), KeyLe())
    ensures Distinct(SortBy(keys, KeyLe()))
    ensures (set k | k in SortBy(keys, KeyLe())) == (set k | k in keys)
  {
    var sorted := SortBy(keys, KeyLe());
    KeyLeTotalPreorder();
    SortBySorted(keys, KeyLe());
    DistinctPermutation(keys, sorted);
    forall k ensures k in sorted <==> k in keys {
      assert k in sorted <==> k in multiset(sorted);
      assert k in keys <==> k in multiset(keys);
    }
  }

  /**
   * The `forEach` of `sortAndGroupContacts`: each contact's key gets a group
   * (and a place in the key list) the first time it is seen, and the
   * contact is pushed onto it.
   */
  method GroupContacts(cs: seq<Contact>) returns (groups: map<string, seq<Contact>>, keys: seq<string>)
    ensures Grouped(cs, groups, keys)
  {
    groups, keys := map[], [];
    for i := 0 to |cs|
      invariant Grouped(cs[..i], groups, keys)
    {
      var c := cs[i];
      var letter := GroupKey(c);
      ghost var groups0, keys0 := groups, keys;
      if letter !in groups {
        groups := groups[letter := []];
        keys := keys + [letter];
      }
      groups := groups[letter := groups[letter] + [c]];
      GroupedStep(cs, i, groups0, keys0);
    }
    assert cs[..|cs|] == cs;
  }

  class Contacts {
    var contacts: seq<Contact>
    var sortedContacts: map<string, seq<Contact>>
    var selectedContact: Option<Contact>
    var uniqueLetters: seq<string>

    constructor ()
      ensures contacts == [] && sortedContacts == map[] && selectedContact == None && uniqueLetters == []
    {
      contacts, sortedContacts, selectedContact, uniqueLetters := [], map[], None, [];
    }

    /**
     * `sortAndGroupContacts`: one group per key that occurs, holding that
     * key's contacts in input order, and the keys sorted without repeats.
     */
    method SortAndGroupContacts(cs: seq<Contact>)
      modifies this
      ensures sortedContacts.Keys == KeysOf(cs)
      ensures forall k :: k in sortedContacts ==> sortedContacts[k] == Group(cs, k)
      ensures SortedBy(uniqueLetters, KeyLe())
      ensures Distinct(uniqueLetters)
      ensures (set k | k in uniqueLetters) == KeysOf(cs)
      ensures SizeOfGroups(cs, uniqueLetters) == |cs|
      ensures contacts == old(contacts) && selectedContact == old(selectedContact)
    {
      var groups, keys := GroupContacts(cs);
      sortedContacts := groups;
      uniqueLetters := SortBy(keys, KeyLe());
      GroupedResult(cs, groups, keys);
    }

    /** `selectContact`. */
    method SelectContact(c: Contact)
      modifies this
      ensures selectedContact == Some(c)
      ensures contacts == old(contacts) && sortedContacts == old(sortedContacts) && uniqueLetters == old(uniqueLetters)
    {
      selectedContact := Some(c);
    }

    /** `updateSelectedContact`: only a selected contact with the same id is replaced. */
    method UpdateSelectedContact(updated: Contact)
      modifies this
      ensures old(selectedContact).Some? && old(selectedContact).value.id == updated.id ==>
                selectedContact == Some(updated)
      ensures !(old(selectedContact).Some? && old(selectedContact).value.id == updated.id) ==>
                selectedContact == old(selectedContact)
      ensures contacts == old(contacts) && sortedContacts == old(sortedContacts) && uniqueLetters == old(uniqueLetters)
    {
      if selectedContact.Some? && selectedContact.value.id == updated.id {
        selectedContact := Some(updated);
      }
    }

    /**
     * `updateContactInList`: the first contact with the updated contact's id
     * is replaced by it; every other entry, and the length, stay.
     */
    method UpdateContactInList(updated: Contact)
      modifies this
      ensures |contacts| == |old(contacts)|
      ensures forall j :: 0 <= j < |contacts| ==>
                if old(contacts)[j].id == updated.id && forall k :: 0 <= k < j ==> old(contacts)[k].id != updated.id
                then contacts[j] == updated
                else contacts[j] == old(contacts)[j]
      ensures selectedContact == old(selectedContact) && sortedContacts == old(sortedContacts)
      ensures uniqueLetters == old(uniqueLetters)
    {
      var index := FirstIndexWhere(contacts, (c: Contact) => c.id == updated.id);
      if index != -1 {
        contacts := contacts[index := updated];
      }
    }

    /** `deselectContact`. */
    method DeselectContact()
      modifies this
      ensures selectedContact == None
      ensures contacts == old(contacts) && sortedContacts == old(sortedContacts) && uniqueLetters == old(uniqueLetters)
    {
      selectedContact := None;
    }
  }
}
