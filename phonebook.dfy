/**
 * The phonebook app (course/phonebook/src/App.js and its earlier copy
 * part_01/phonebook/src/App.js, which hold the same logic). The component's
 * `useState` fields become the fields of class `App`; each setter call in a
 * handler becomes an assignment to that field.
 */
module Phonebook {
  import opened Collections
  import opened Text

  datatype Person = Person(name: string, phone: string)

  /** Some entry carries exactly this name (JavaScript `===`, case-sensitive). */
  predicate IsListed(persons: seq<Person>, name: string)
  {
    exists i :: 0 <= i < |persons| && persons[i].name == name
  }

  /** No two entries share a name. */
  predicate NamesDistinct(persons: seq<Person>)
  {
    forall i, j :: 0 <= i < j < |persons| ==> persons[i].name != persons[j].name
  }

  /** `persons.find(person => person.name === name)` */
  function FindByName(persons: seq<Person>, name: string): (r: Option<Person>)
    ensures r.Some? <==> IsListed(persons, name)
    ensures r.Some? ==> r.value.name == name && r.value in persons
  {
    FindFirst(persons, (p: Person) => p.name == name)
  }

  /** `filteredPersons(filter)`: the entries whose name matches the filter, in order. */
  function FilteredPersons(persons: seq<Person>, filter: string): (r: seq<Person>)
    ensures IsSubsequence(r, persons)
    ensures forall p :: p in r <==> p in persons && MatchesFilter(p.name, filter)
    ensures forall p :: multiset(r)[p] == if MatchesFilter(p.name, filter) then multiset(persons)[p] else 0
    ensures filter == "" ==> r == persons
  {
    EmptyFilterMatchesAll();
    KeepIf(persons, (p: Person) => MatchesFilter(p.name, filter))
  }

  /** Case-insensitive matching on concrete names: "da" keeps "Ada" and drops "Mary". */
  lemma FilterExample()
    ensures FilteredPersons([Person("Ada", "1"), Person("Mary", "2")], "da") == [Person("Ada", "1")]
  {
    assert Lower("da") == "da";
    assert Lower("Ada") == "ada";
    assert Lower("Mary") == "mary";
    assert IsSubstring("da", "ada") by {
      assert IsSubstring("da", "ada"[1..]) by { assert "da" <= "ada"[1..]; }
    }
    assert !IsSubstring("da", "mary") by {
      IsSubstringIffOccurs("da", "mary");
      forall i | 0 <= i <= 2 ensures !OccursAt("da", "mary", i) {
        assert "mary"[i] != 'd';
        assert "mary"[i..i + 2][0] == "mary"[i];
      }
    }
    var ada, mary := Person("Ada", "1"), Person("Mary", "2");
    var keep := (p: Person) => MatchesFilter(p.name, "da");
    assert keep(ada) && !keep(mary);
    assert KeepIf([mary], keep) == [] by {
      assert [mary][1..] == [];
    }
    assert [ada, mary][1..] == [mary];
    assert KeepIf([ada, mary], keep) == [ada] + KeepIf([mary], keep);
  }

  class App {
    var persons: seq<Person>
    var newName: string
    var newPhone: string
    var filter: string

    /** The initial state: one entry and empty drafts and filter. */
    constructor ()
      ensures persons == [Person("Arto Hellas", "040-1234567")]
      ensures newName == "" && newPhone == "" && filter == ""
      ensures NamesDistinct(persons)
    {
      persons := [Person("Arto Hellas", "040-1234567")];
      newName := "";
      newPhone := "";
      filter := "";
    }

    /**
     * Submitting the form: a name already listed is refused (the source only
     * raises an alert); otherwise the drafts are appended as a new entry and
     * both drafts are cleared.
     */
    method HandleFormSubmission()
      modifies this`persons, this`newName, this`newPhone
      ensures IsListed(old(persons), old(newName)) ==>
                persons == old(persons) && newName == old(newName) && newPhone == old(newPhone)
      ensures !IsListed(old(persons), old(newName)) ==>
                persons == old(persons) + [Person(old(newName), old(newPhone))] &&
                newName == "" && newPhone == ""
      ensures IsListed(persons, old(newName))
      ensures NamesDistinct(old(persons)) ==> NamesDistinct(persons)
    {
      if FindByName(persons, newName).Some? {
        // alert only: the state is left as it is
      } else {
        persons := persons + [Person(newName, newPhone)];
        assert persons[|persons| - 1].name == old(newName);
        newName := "";
        newPhone := "";
      }
    }

    method HandleNameChange(value: string)
      modifies this`newName
      ensures newName == value
    {
      newName := value;
    }

    method HandlePhoneChange(value: string)
      modifies this`newPhone
      ensures newPhone == value
    {
      newPhone := value;
    }

    method HandleFilterChange(value: string)
      modifies this`filter
      ensures filter == value
    {
      filter := value;
    }

    /** What the Numbers list shows: the entries matching the current filter. */
    function Shown(): (r: seq<Person>)
      reads this
      ensures IsSubsequence(r, persons)
      ensures forall p :: p in r <==> p in persons && MatchesFilter(p.name, filter)
      ensures forall p :: multiset(r)[p] == if MatchesFilter(p.name, filter) then multiset(persons)[p] else 0
    {
      FilteredPersons(persons, filter)
    }
  }

  /**
   * The empty name gets no special treatment: from the initial state, an
   * empty-name submission is accepted once and the next one is refused.
   */
  method EmptyNameSubmittedTwice(phone: string) returns (afterFirst: seq<Person>, afterSecond: seq<Person>)
    ensures afterFirst == [Person("Arto Hellas", "040-1234567"), Person("", phone)]
    ensures afterSecond == afterFirst
  {
    var app := new App();
    app.HandlePhoneChange(phone);
    assert !IsListed(app.persons, "") by {
      assert app.persons[0].name != "";
    }
    app.HandleFormSubmission();
    afterFirst := app.persons;
    app.HandlePhoneChange(phone);
    app.HandleFormSubmission();
    afterSecond := app.persons;
  }
}
