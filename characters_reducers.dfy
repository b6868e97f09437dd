/** The application state of the character list and the reducer that maps an
    action to the next state. Every transition builds a new state from the old
    one; none mutates. */
module Reducers {
  import opened Lists
  import opened Interfaces
  import opened Actions

  /** `entities` is the entity adapter's collection in insertion order (its
      `ids` list together with its `entities` dictionary). */
  datatype ApplicationState = ApplicationState(
    entities: seq<Character>,
    isLoading: bool,
    error: Option<string>,
    pagination: Option<PaginationInfo>,
    selectedCharacter: Option<Character>,
    searchCharacters: seq<string>,
    searchName: Option<string>,
    currentPage: int)

  const InitialState: ApplicationState :=
    ApplicationState([], false, None, None, None, [], None, 1)

  const FailureFallback: string := "Something went wrong..."

  predicate HasId(es: seq<Character>, id: int) {
    exists i :: 0 <= i < |es| && es[i].id == id
  }

  predicate UniqueIds(es: seq<Character>) {
    forall i, j :: 0 <= i < j < |es| ==> es[i].id != es[j].id
  }

  /** What every reachable state satisfies: one entity per id, and the search
      history without repetitions. */
  predicate Invariant(s: ApplicationState) {
    UniqueIds(s.entities) && NoDuplicates(s.searchCharacters)
  }

  /** The entity adapter's addOne: a character whose id is already stored is
      skipped, any other is appended. */
  function AddOne(es: seq<Character>, c: Character): seq<Character> {
    if HasId(es, c.id) then es else es + [c]
  }

  /** The entity adapter's addMany: addOne for each character in turn. The
      stored entities stay in place, every id of the batch ends up stored, and
      no id is stored twice. */
  function AddMany(es: seq<Character>, cs: seq<Character>): (r: seq<Character>)
    ensures |es| <= |r| && r[..|es|] == es
    ensures forall c :: c in cs ==> HasId(r, c.id)
    ensures UniqueIds(es) ==> UniqueIds(r)
    decreases |cs|
  {
    if cs == [] then es
    else
      var next := AddOne(es, cs[0]);
      assert HasId(next, cs[0].id) by {
        if !HasId(es, cs[0].id) {
          assert next[|es|].id == cs[0].id;
        }
      }
      var r := AddMany(next, cs[1..]);
      assert r[..|es|] == r[..|next|][..|es|];
      assert HasId(r, cs[0].id) by {
        var i :| 0 <= i < |next| && next[i].id == cs[0].id;
        assert r[i] == next[i];
      }
      assert forall c :: c in cs ==> c == cs[0] || c in cs[1..];
      r
  }

  /** addMany adds nothing but characters of the batch, each carrying an id
      that was not stored before. */
  lemma {:induction false} AddManyAddsOnlyNew(es: seq<Character>, cs: seq<Character>)
    ensures forall i :: |es| <= i < |AddMany(es, cs)| ==>
      AddMany(es, cs)[i] in cs && !HasId(es, AddMany(es, cs)[i].id)
    decreases |cs|
  {
    if cs != [] {
      var next := AddOne(es, cs[0]);
      var r := AddMany(next, cs[1..]);
      assert AddMany(es, cs) == r;
      AddManyAddsOnlyNew(next, cs[1..]);
      forall i | |es| <= i < |r|
        ensures r[i] in cs && !HasId(es, r[i].id)
      {
        if i < |next| {
          assert r[i] == r[..|next|][i] == next[i] == cs[0];
        } else {
          assert r[i] in cs[1..] && !HasId(next, r[i].id);
        }
      }
    }
  }

  /** The first character of the batch with a given id is the one addMany
      adds for that id, as it is. */
  predicate FirstWithNewId(es: seq<Character>, cs: seq<Character>, i: int)
    requires 0 <= i < |cs|
  {
    !HasId(es, cs[i].id) && forall j :: 0 <= j < i ==> cs[j].id != cs[i].id
  }

  lemma {:induction false} AddManyAddsFirstNew(es: seq<Character>, cs: seq<Character>)
    ensures forall i :: 0 <= i < |cs| && FirstWithNewId(es, cs, i) ==> cs[i] in AddMany(es, cs)
    decreases |cs|
  {
    if cs != [] {
      var next := AddOne(es, cs[0]);
      var r := AddMany(next, cs[1..]);
      assert AddMany(es, cs) == r;
      AddManyAddsFirstNew(next, cs[1..]);
      forall i | 0 <= i < |cs| && FirstWithNewId(es, cs, i)
        ensures cs[i] in r
      {
        if i == 0 {
          assert next[|es|] == cs[0] && r[..|next|][|es|] == r[|es|];
        } else {
          assert cs[1..][i - 1] == cs[i];
          assert forall j :: 0 <= j < i - 1 ==> cs[1..][j] == cs[j + 1];
          assert FirstWithNewId(next, cs[1..], i - 1);
        }
      }
    }
  }

  /** addOne appends the character exactly when its id is new. */
  lemma AddOneAppended(es: seq<Character>, c: Character)
    ensures AddOne(es, c)[|es|..] == if HasId(es, c.id) then [] else [c]
  {
  }

  /** What addMany appends: what the head of the batch appends, then what the
      rest of the batch appends. */
  lemma AddManySplit(es: seq<Character>, cs: seq<Character>)
    requires cs != []
    ensures AddMany(es, cs)[|es|..] ==
      AddOne(es, cs[0])[|es|..] + AddMany(AddOne(es, cs[0]), cs[1..])[|AddOne(es, cs[0])|..]
  {
    var next := AddOne(es, cs[0]);
    assert AddMany(es, cs) == AddMany(next, cs[1..]);
    SliceAfterPrefix(AddMany(next, cs[1..]), next, |es|);
  }

  /** addOne leaves the character's id stored. */
  lemma AddOneStores(es: seq<Character>, c: Character)
    ensures HasId(AddOne(es, c), c.id)
  {
    if !HasId(es, c.id) {
      assert AddOne(es, c)[|es|] == c;
    }
  }

  /** What follows a prefix, when every element of it comes from `rest` with
      an id the prefix lacks, avoids any character whose id the prefix has. */
  lemma NewPastPrefix(r: seq<Character>, p: seq<Character>, rest: seq<Character>, c: Character)
    requires |p| <= |r| && HasId(p, c.id)
    requires forall i :: |p| <= i < |r| ==> r[i] in rest && !HasId(p, r[i].id)
    ensures forall i :: 0 <= i < |r[|p|..]| ==> r[|p|..][i] in rest && r[|p|..][i] != c
  {
    forall i | 0 <= i < |r[|p|..]|
      ensures r[|p|..][i] in rest && r[|p|..][i] != c
    {
      assert r[|p|..][i] == r[|p| + i];
    }
  }

  /** What the rest of the batch appends comes from the rest of the batch and
      is never the head, whose id is stored by then. */
  lemma AddedAvoidHead(es: seq<Character>, cs: seq<Character>)
    requires cs != []
    ensures var t := AddMany(AddOne(es, cs[0]), cs[1..])[|AddOne(es, cs[0])|..];
      forall i :: 0 <= i < |t| ==> t[i] in cs[1..] && t[i] != cs[0]
  {
    var next := AddOne(es, cs[0]);
    AddManyAddsOnlyNew(next, cs[1..]);
    AddOneStores(es, cs[0]);
    NewPastPrefix(AddMany(next, cs[1..]), next, cs[1..], cs[0]);
  }

  /** addMany appends the new characters in the order of the batch. */
  lemma {:induction false} AddManyKeepsBatchOrder(es: seq<Character>, cs: seq<Character>)
    ensures InFirstOccurrenceOrder(AddMany(es, cs)[|es|..], cs)
    decreases |cs|
  {
    if cs != [] {
      var next := AddOne(es, cs[0]);
      AddManyKeepsBatchOrder(next, cs[1..]);
      AddManySplit(es, cs);
      AddOneAppended(es, cs[0]);
      AddedAvoidHead(es, cs);
      OrderStepOfBatch(AddMany(es, cs)[|es|..], next[|es|..], AddMany(next, cs[1..])[|next|..], cs);
    }
  }

  /** appReducer. `UpdateSelectedCharacter` is the action the reducer file
      imports as `setSearchCharacters`; `LoadCharacters` and
      `UpdateChangedCharacters` have no case and leave the state as it is. */
  function Reduce(s: ApplicationState, a: Action): ApplicationState {
    match a
    case LoadCharactersSuccess(characters, pagination) =>
      s.(entities := AddMany(s.entities, characters), pagination := Some(pagination), error := None)
    case LoadCharactersFailure(message) =>
      s.(error := Some(if message == "" then FailureFallback else message))
    case UpdateSelectedCharacter(selectedCharacter) =>
      s.(selectedCharacter := selectedCharacter)
    case AddSearchCharacter(characterName) =>
      s.(searchCharacters := Dedup(s.searchCharacters + [characterName]))
    case IsLoading(isLoading) =>
      s.(isLoading := isLoading)
    case UpdateCurrentPage(currentPage) =>
      s.(currentPage := currentPage)
    case UpdateSearchName(searchName) =>
      s.(searchName := Some(searchName), entities := [])
    case LoadCharacters => s
    case UpdateChangedCharacters(_) => s
  }

  /** The store applying a sequence of dispatched actions in order. */
  function ReduceAll(s: ApplicationState, log: seq<Action>): ApplicationState
    decreases |log|
  {
    if log == [] then s else ReduceAll(Reduce(s, log[0]), log[1..])
  }

  /** The initial state: not loading, no error, no pagination, page 1, no
      entities and an empty search history (so it meets the invariant). */
  lemma InitialStateValues()
    ensures InitialState.isLoading == false && InitialState.error == None
    ensures InitialState.pagination == None && InitialState.currentPage == 1
    ensures InitialState.searchCharacters == [] && InitialState.entities == []
    ensures InitialState.searchName == None && InitialState.selectedCharacter == None
    ensures Invariant(InitialState)
  {
  }

  /** Every transition keeps the invariant. */
  lemma ReducePreservesInvariant(s: ApplicationState, a: Action)
    requires Invariant(s)
    ensures Invariant(Reduce(s, a))
  {
  }

  /** addSearchCharacter on any history: the result has no repetitions, holds
      exactly the old names and the new one, keeps the old names in
      first-occurrence order, and appends the name only when it is new. Nothing
      but the search history changes. */
  lemma AddSearchCharacterSpec(s: ApplicationState, name: string)
    ensures var r := Reduce(s, AddSearchCharacter(name)).searchCharacters;
            && NoDuplicates(r)
            && name in r
            && (forall x :: x in r <==> x in s.searchCharacters || x == name)
            && r == Dedup(s.searchCharacters) + (if name in s.searchCharacters then [] else [name])
            && InFirstOccurrenceOrder(r, s.searchCharacters + [name])
    ensures Reduce(s, AddSearchCharacter(name)) ==
            s.(searchCharacters := Reduce(s, AddSearchCharacter(name)).searchCharacters)
  {
    var old_ := s.searchCharacters;
    var joined := old_ + [name];
    assert joined[..|joined| - 1] == old_;
    assert name in Dedup(old_) <==> name in old_;
    DedupKeepsFirstOccurrenceOrder(joined);
  }

  /** On a history without repetitions (every reachable one), the name is
      appended when new and the history is unchanged otherwise. */
  lemma AddSearchCharacterOnDistinct(s: ApplicationState, name: string)
    requires NoDuplicates(s.searchCharacters)
    ensures Reduce(s, AddSearchCharacter(name)).searchCharacters ==
            if name in s.searchCharacters then s.searchCharacters
            else s.searchCharacters + [name]
  {
    AddSearchCharacterSpec(s, name);
    DedupOfDistinct(s.searchCharacters);
  }

  /** Adding the same name twice gives the same state as adding it once. */
  lemma AddSearchCharacterIdempotent(s: ApplicationState, name: string)
    ensures Reduce(Reduce(s, AddSearchCharacter(name)), AddSearchCharacter(name)) ==
            Reduce(s, AddSearchCharacter(name))
  {
    var once := Reduce(s, AddSearchCharacter(name));
    AddSearchCharacterSpec(s, name);
    AddSearchCharacterOnDistinct(once, name);
  }

  /** loadCharactersFailure stores the message, or the fallback text when the
      message is empty, and changes nothing else. */
  lemma FailureSetsError(s: ApplicationState, message: string)
    ensures Reduce(s, LoadCharactersFailure(message)).error.Some?
    ensures message != "" ==> Reduce(s, LoadCharactersFailure(message)).error == Some(message)
    ensures message == "" ==> Reduce(s, LoadCharactersFailure(message)).error == Some(FailureFallback)
    ensures Reduce(s, LoadCharactersFailure(message)) ==
            s.(error := Reduce(s, LoadCharactersFailure(message)).error)
  {
  }

  /** loadCharactersSuccess stores the pagination, clears the error, keeps the
      stored entities and adds the batch: every id of it ends up stored, what
      is added comes from the batch with an id not stored before, and the first
      character of the batch with a new id is added as it is, the new
      characters in batch order. */
  lemma SuccessStoresPage(s: ApplicationState, characters: seq<Character>, pagination: PaginationInfo)
    ensures var r := Reduce(s, LoadCharactersSuccess(characters, pagination));
            && r.pagination == Some(pagination) && r.error == None
            && r.entities[..|s.entities|] == s.entities
            && (forall c :: c in characters ==> HasId(r.entities, c.id))
            && r == s.(entities := r.entities, pagination := Some(pagination), error := None)
    ensures var es := Reduce(s, LoadCharactersSuccess(characters, pagination)).entities;
            && (forall i :: |s.entities| <= i < |es| ==> es[i] in characters && !HasId(s.entities, es[i].id))
            && (forall i :: 0 <= i < |characters| && FirstWithNewId(s.entities, characters, i) ==> characters[i] in es)
            && InFirstOccurrenceOrder(es[|s.entities|..], characters)
  {
    AddManyAddsOnlyNew(s.entities, characters);
    AddManyAddsFirstNew(s.entities, characters);
    AddManyKeepsBatchOrder(s.entities, characters);
  }

  /** updateSearchName stores the name and empties the entity collection. */
  lemma SearchNameClearsEntities(s: ApplicationState, name: string)
    ensures Reduce(s, UpdateSearchName(name)) == s.(searchName := Some(name), entities := [])
  {
  }

  /** updateCurrentPage, isLoading and the selected-character action each
      change their own field only. */
  lemma SettersChangeOneField(s: ApplicationState, page: int, loading: bool, selected: Option<Character>)
    ensures Reduce(s, UpdateCurrentPage(page)) == s.(currentPage := page)
    ensures Reduce(s, IsLoading(loading)) == s.(isLoading := loading)
    ensures Reduce(s, UpdateSelectedCharacter(selected)) == s.(selectedCharacter := selected)
  {
  }
}
