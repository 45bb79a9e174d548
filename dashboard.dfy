/**
  The `Dashboard` component: its four pieces of state and the handlers that
  turn a user action, or a backend response, into a new state.

  The REST backend is not modelled. Each handler receives the backend's
  answer to its request as a parameter (`Ok(data)` or `Failed`) and returns
  the request it sent, so a handler is a deterministic step from the old state
  and the answer to the new state. The functions on `UiState` below are those
  steps; the methods of class `Dashboard` perform them on the component's
  fields.
 */
module DashboardPage {
  import opened Wrappers
  import opened Foods
  import opened FoodList

  /** A request to the `/foods` collection. `PutFood(None, _)` has "undefined" in its path. */
  datatype Request =
    | GetFoods
    | PostFood(body: FoodObject)
    | PutFood(key: Option<int>, body: FoodObject)
    | DeleteFood(id: int)

  /** The backend's answer: the response's `data`, or a rejected request. */
  datatype Response<+T> = Ok(data: T) | Failed

  /** `foods`, `editingFood`, `modalOpen` and `editModalOpen`. */
  datatype UiState = UiState(
    foods: seq<Food>,
    editingFood: Option<Food>,
    modalOpen: bool,
    editModalOpen: bool)

  /** The state at mount: no foods, nothing being edited, both modals closed. */
  const Mounted: UiState := UiState([], None, false, false)

  /** Only the list differs (or nothing does). */
  predicate SameUi(s: UiState, t: UiState) {
    t.editingFood == s.editingFood && t.modalOpen == s.modalOpen && t.editModalOpen == s.editModalOpen
  }

  // ---------------------------------------------------------------------------
  // The steps
  // ---------------------------------------------------------------------------

  /** `loadFoods`: the list becomes the backend's, in the backend's order; a failure changes nothing. */
  function Loaded(s: UiState, r: Response<seq<Food>>): (t: UiState)
    ensures SameUi(s, t)
    ensures r.Ok? ==> t.foods == r.data
    ensures r.Failed? ==> t == s
  {
    if r.Ok? then s.(foods := r.data) else s
  }

  /**
    `handleAddFood` after the post: the record the backend returned is added
    at the end and every earlier element stays; a failure changes nothing.
   */
  function Added(s: UiState, r: Response<Food>): (t: UiState)
    ensures SameUi(s, t)
    ensures r.Ok? ==> |t.foods| == |s.foods| + 1 && t.foods[..|s.foods|] == s.foods
    ensures r.Ok? ==> t.foods[|s.foods|] == r.data
    ensures r.Failed? ==> t == s
  {
    if r.Ok? then s.(foods := Append(s.foods, r.data)) else s
  }

  /**
    `handleUpdateFood` after the put: length and order stay, every element
    with the response's id becomes the response, every other element stays;
    a failure changes nothing.
   */
  function Updated(s: UiState, r: Response<Food>): (t: UiState)
    ensures SameUi(s, t)
    ensures |t.foods| == |s.foods|
    ensures r.Ok? ==> forall i :: 0 <= i < |s.foods| ==>
      t.foods[i] == if s.foods[i].id == r.data.id then r.data else s.foods[i]
    ensures r.Ok? && !HasId(s.foods, r.data.id) ==> t == s
    ensures r.Failed? ==> t == s
  {
    if r.Ok? then
      var t := s.(foods := ReplaceById(s.foods, r.data));
      assert !HasId(s.foods, r.data.id) ==> t == s by {
        if !HasId(s.foods, r.data.id) { ReplaceByIdAbsent(s.foods, r.data); }
      }
      t
    else s
  }

  /**
    `handleDeleteFood` after the delete: no element has the id any more and
    the others keep their order; a failed request throws before the filter,
    so nothing is removed.
   */
  function Deleted(s: UiState, id: int, r: Response<()>): (t: UiState)
    ensures SameUi(s, t)
    ensures r.Ok? ==> !HasId(t.foods, id)
    ensures r.Ok? ==> forall f :: f in t.foods <==> f in s.foods && f.id != id
    ensures r.Ok? ==> Subsequence(t.foods, s.foods)
    ensures r.Ok? ==> forall f :: multiset(t.foods)[f] == if f.id == id then 0 else multiset(s.foods)[f]
    ensures (r.Ok? && !HasId(s.foods, id)) || r.Failed? ==> t == s
  {
    if r.Ok? then
      RemoveByIdHasId(s.foods, id, id);
      RemoveByIdSubsequence(s.foods, id);
      RemoveByIdCount(s.foods, id);
      var t := s.(foods := RemoveById(s.foods, id));
      assert !HasId(s.foods, id) ==> t == s by {
        if !HasId(s.foods, id) { RemoveByIdAbsent(s.foods, id); }
      }
      t
    else s
  }

  /** `toggleModal`: flips the add modal's flag and nothing else. */
  function ModalToggled(s: UiState): (t: UiState)
    ensures t.modalOpen == !s.modalOpen
    ensures t.foods == s.foods && t.editingFood == s.editingFood && t.editModalOpen == s.editModalOpen
  {
    s.(modalOpen := !s.modalOpen)
  }

  /** `toggleEditModal`: flips the edit modal's flag and nothing else. */
  function EditModalToggled(s: UiState): (t: UiState)
    ensures t.editModalOpen == !s.editModalOpen
    ensures t.foods == s.foods && t.editingFood == s.editingFood && t.modalOpen == s.modalOpen
  {
    s.(editModalOpen := !s.editModalOpen)
  }

  /** `handleEditFood(f)`: the edit modal is open, whatever it was, and `f` is the edit target. */
  function EditStarted(s: UiState, f: Food): (t: UiState)
    ensures t.editModalOpen && t.editingFood == Some(f)
    ensures t.foods == s.foods && t.modalOpen == s.modalOpen
  {
    s.(editModalOpen := true, editingFood := Some(f))
  }

  // ---------------------------------------------------------------------------
  // Properties relating several steps
  // ---------------------------------------------------------------------------

  /** Toggling either modal twice restores the state. */
  lemma ToggleTwice(s: UiState)
    ensures ModalToggled(ModalToggled(s)) == s
    ensures EditModalToggled(EditModalToggled(s)) == s
  {
  }

  /** The two flags are independent: the toggles commute. */
  lemma TogglesCommute(s: UiState)
    ensures ModalToggled(EditModalToggled(s)) == EditModalToggled(ModalToggled(s))
  {
  }

  /** Beginning an edit again, without closing, leaves the last target and the modal open. */
  lemma EditStartedLastWins(s: UiState, f: Food, g: Food)
    ensures EditStarted(EditStarted(s, f), g) == EditStarted(s, g)
  {
  }

  /** Deleting the same id twice: the second delete changes nothing. */
  lemma DeleteTwice(s: UiState, id: int)
    ensures Deleted(Deleted(s, id, Ok(())), id, Ok(())) == Deleted(s, id, Ok(()))
  {
  }

  /** Deleting the id of a record just created with a fresh id restores the state. */
  lemma DeleteUndoesAdd(s: UiState, f: Food)
    requires !HasId(s.foods, f.id)
    ensures Deleted(Added(s, Ok(f)), f.id, Ok(())) == s
  {
    RemoveAppended(s.foods, f);
  }

  /** The state after one successful create per record of `created`, in that order. */
  function AddAll(s: UiState, created: seq<Food>): UiState
    decreases |created|
  {
    if created == [] then s
    else Added(AddAll(s, created[..|created| - 1]), Ok(created[|created| - 1]))
  }

  /**
    Every successful create appends exactly the backend's record, so n
    successful creates append the n returned records, in order, and touch
    nothing but the list.
   */
  lemma {:induction false} AddsCount(s: UiState, created: seq<Food>)
    ensures |AddAll(s, created).foods| == |s.foods| + |created|
    ensures AddAll(s, created).foods == s.foods + created
    ensures SameUi(s, AddAll(s, created))
  {
    if created != [] {
      var front := created[..|created| - 1];
      AddsCount(s, front);
      assert created == front + [created[|created| - 1]];
    }
  }

  /**
    The list holds at most one record per id as long as the backend keeps to
    it: a unique list loaded, created records with fresh ids. Update and
    delete keep it whatever the response.
   */
  lemma UniqueIdsPreserved(s: UiState)
    requires UniqueIds(s.foods)
    ensures forall r: Response<seq<Food>> :: r.Ok? && UniqueIds(r.data) ==> UniqueIds(Loaded(s, r).foods)
    ensures forall f: Food :: !HasId(s.foods, f.id) ==> UniqueIds(Added(s, Ok(f)).foods)
    ensures forall u: Food :: UniqueIds(Updated(s, Ok(u)).foods)
    ensures forall id: int :: UniqueIds(Deleted(s, id, Ok(())).foods)
  {
    forall f: Food | !HasId(s.foods, f.id) ensures UniqueIds(Added(s, Ok(f)).foods) {
      AppendUnique(s.foods, f);
    }
    forall u: Food ensures UniqueIds(Updated(s, Ok(u)).foods) {
      ReplaceByIdKeepsIds(s.foods, u);
    }
    forall id: int ensures UniqueIds(Deleted(s, id, Ok(())).foods) {
      RemoveByIdUnique(s.foods, id);
    }
  }

  // ---------------------------------------------------------------------------
  // The component
  // ---------------------------------------------------------------------------

  class Dashboard {
    var foods: seq<Food>
    var editingFood: Option<Food>
    var modalOpen: bool
    var editModalOpen: bool

    /** The component's four state fields as one value. */
    function State(): UiState
      reads this
    {
      UiState(foods, editingFood, modalOpen, editModalOpen)
    }

    /** The initial values of the four `useState` hooks. */
    constructor ()
      ensures State() == Mounted
    {
      foods, editingFood, modalOpen, editModalOpen := [], None, false, false;
    }

    /**
      The `loadFoods` effect: fetches the list and replaces `foods` with it.
      A failure is not caught: the returned promise rejects and nothing changes.
     */
    method LoadFoods(response: Response<seq<Food>>) returns (request: Request, rejected: bool)
      modifies this`foods
      ensures request == GetFoods
      ensures rejected <==> response.Failed?
      ensures State() == Loaded(old(State()), response)
    {
      request := GetFoods;
      rejected := response.Failed?;
      if !rejected {
        foods := response.data;
      }
    }

    /**
      `handleAddFood`: posts the submission with `available: true` and appends
      the returned record. A failure is caught and logged; nothing changes.
     */
    method HandleAddFood(food: FoodObject, response: Response<Food>) returns (request: Request)
      modifies this`foods
      ensures request == PostFood(AddPayload(food))
      ensures State() == Added(old(State()), response)
    {
      request := PostFood(AddPayload(food));
      if response.Ok? {
        foods := Append(foods, response.data);
      }
    }

    /**
      `handleUpdateFood`: puts the edit target merged with the submission,
      keyed by the edit target's id, then replaces every element carrying the
      returned record's id. A failure is caught and logged; nothing changes.
     */
    method HandleUpdateFood(food: FoodObject, response: Response<Food>) returns (request: Request)
      modifies this`foods
      ensures request == PutFood(IdOf(editingFood), UpdatePayload(editingFood, food))
      ensures State() == Updated(old(State()), response)
    {
      request := PutFood(IdOf(editingFood), UpdatePayload(editingFood, food));
      if response.Ok? {
        foods := ReplaceById(foods, response.data);
      }
    }

    /**
      `handleDeleteFood`: deletes by id, then filters the id out. A failure is
      not caught: the promise rejects before the filter and nothing changes.
     */
    method HandleDeleteFood(id: int, response: Response<()>) returns (request: Request, rejected: bool)
      modifies this`foods
      ensures request == DeleteFood(id)
      ensures rejected <==> response.Failed?
      ensures State() == Deleted(old(State()), id, response)
    {
      request := DeleteFood(id);
      rejected := response.Failed?;
      if !rejected {
        foods := RemoveById(foods, id);
      }
    }

    /** `toggleModal`. */
    method ToggleModal()
      modifies this`modalOpen
      ensures State() == ModalToggled(old(State()))
    {
      modalOpen := !modalOpen;
    }

    /** `toggleEditModal`. */
    method ToggleEditModal()
      modifies this`editModalOpen
      ensures State() == EditModalToggled(old(State()))
    {
      editModalOpen := !editModalOpen;
    }

    /** `handleEditFood`. */
    method HandleEditFood(food: Food)
      modifies this`editModalOpen, this`editingFood
      ensures State() == EditStarted(old(State()), food)
    {
      editModalOpen := true;
      editingFood := Some(food);
    }
  }

  // ---------------------------------------------------------------------------
  // A session: mount and load one record, create a second, edit the first's
  // price, then delete the second.
  // ---------------------------------------------------------------------------

  const Cake := Food(1, "Cake", "Layered", "10.00", true, "cake.png")
  const Pie := Food(2, "Pie", "", "10.00", true, "x.png")
  const CheaperCake := Cake.(price := "12.00")

  /** Mounting and loading one record lists exactly that record. */
  method SessionLoad() returns (d: Dashboard)
    ensures fresh(d) && d.State() == Mounted.(foods := [Cake])
  {
    d := new Dashboard();
    var request, rejected := d.LoadFoods(Ok([Cake]));
    assert request == GetFoods && !rejected;
  }

  /** Creating "Pie" posts it with `available: true` and lists the backend's record second. */
  method SessionAdd() returns (d: Dashboard)
    ensures fresh(d) && d.State() == Mounted.(foods := [Cake, Pie])
  {
    d := SessionLoad();
    var form := map[Name := Text("Pie"), Description := Text(""), Price := Text("10.00"), Image := Text("x.png")];
    var request := d.HandleAddFood(form, Ok(Pie));
    assert request.body[Available] == Flag(true) && request.body[Name] == Text("Pie");
  }

  /** Editing the first record's price alone sends the merged record and updates that row only. */
  method SessionEdit() returns (d: Dashboard)
    ensures fresh(d) && d.foods == [CheaperCake, Pie]
    ensures d.editingFood == Some(Cake) && d.editModalOpen
  {
    d := SessionAdd();
    d.HandleEditFood(Cake);
    var submitted := map[Price := Text("12.00")];
    var request := d.HandleUpdateFood(submitted, Ok(CheaperCake));
    assert request.key == Some(1);
    assert request.body == ObjectOf(CheaperCake);
    assert d.foods[0] == CheaperCake && d.foods[1] == Pie;
  }

  /** A failed delete of the second record removes nothing; a successful one leaves the first alone. */
  method SessionDelete() returns (d: Dashboard)
    ensures fresh(d) && d.foods == [CheaperCake]
  {
    d := SessionEdit();
    var request, rejected := d.HandleDeleteFood(2, Failed);
    assert rejected && d.foods == [CheaperCake, Pie];
    request, rejected := d.HandleDeleteFood(2, Ok(()));
    assert request == DeleteFood(2);
    assert RemoveById([Pie], 2) == [];
    assert RemoveById([CheaperCake, Pie], 2) == [CheaperCake] + RemoveById([Pie], 2);
  }
}
