/**
 * A belief state held as an algebraic decision diagram (BeliefStateAdd).
 * The diagram type DD comes from a symbolic library that is not part of
 * this model, so it is a type parameter, and the library's conversion of a
 * diagram to a dense vector over the given state variables is a function
 * parameter of GetPoint.
 */
module AddBelief {
  class BeliefStateAdd<DD> {
    /** The decision diagram itself. */
    var bAdd: DD
    /**
     * The probability of reaching this belief from its predecessor under the
     * action and observation that led here.
     */
    var poba: real
    /** The id of the plan that supports this belief point; -1 for none. */
    var planid: int
    /** The ids of the state variables, shared with the caller. */
    const staIds: array<int>

    /** Stores the diagram, the state-variable array and poba; no plan yet. */
    constructor (b: DD, staIds: array<int>, poba: real)
      ensures bAdd == b && this.staIds == staIds && this.poba == poba
      ensures planid == -1
    {
      bAdd := b;
      this.staIds := staIds;
      this.poba := poba;
      planid := -1;
    }

    /**
     * getPoint: a fresh dense vector, the conversion of the diagram over the
     * state variables' current ids; nothing is cached or changed.
     */
    method GetPoint(convert2array: (DD, seq<int>) -> seq<real>) returns (point: array<real>)
      ensures fresh(point)
      ensures point[..] == convert2array(bAdd, staIds[..])
    {
      var dense := convert2array(bAdd, staIds[..]);
      point := new real[|dense|](i requires 0 <= i < |dense| => dense[i]);
    }

    method GetPoba() returns (p: real)
      ensures p == poba
    {
      p := poba;
    }

    /** setPoba: replaces poba and nothing else. */
    method SetPoba(poba: real)
      modifies this
      ensures this.poba == poba
      ensures planid == old(planid) && bAdd == old(bAdd)
    {
      this.poba := poba;
    }

    method GetAlpha() returns (id: int)
      ensures id == planid
    {
      id := planid;
    }

    /** setAlpha: replaces the plan id and nothing else. */
    method SetAlpha(planid: int)
      modifies this
      ensures this.planid == planid
      ensures poba == old(poba) && bAdd == old(bAdd)
    {
      this.planid := planid;
    }

    /** getEntropy is a stub that always returns 0. */
    method GetEntropy() returns (e: real)
      ensures e == 0.0
    {
      e := 0.0;
    }
  }
}
