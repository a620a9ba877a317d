/**
 The part of a SCIP model that the builders use: a growing list of rows over the values of the
 decision variables, and the objective. A row is what it says about an assignment.
 */
module Scip {

  ghost predicate Holds<A(!new)>(rows: seq<A -> bool>, a: A) {
    forall i :: 0 <= i < |rows| ==> rows[i](a)
  }

  class Model<A(!new)> {
    var rows: seq<A -> bool>
    var objective: A -> real

    constructor ()
      ensures forall a :: Holds(rows, a) && objective(a) == 0.0
    {
      rows := [];
      objective := a => 0.0;
    }

    method AddCons(row: A -> bool)
      modifies this
      ensures forall a :: Holds(rows, a) <==> old(Holds(rows, a)) && row(a)
      ensures objective == old(objective)
    {
      rows := rows + [row];
      forall a ensures Holds(rows, a) <==> old(Holds(rows, a)) && row(a) {
        assert forall i :: 0 <= i < |old(rows)| ==> rows[i] == old(rows)[i];
        assert rows[|old(rows)|] == row;
      }
    }

    /** A variable brings its bounds and integrality as a row, and its objective term. */
    method AddVar(domain: A -> bool, term: A -> real)
      modifies this
      ensures forall a :: Holds(rows, a) <==> old(Holds(rows, a)) && domain(a)
      ensures forall a :: objective(a) == old(objective(a)) + term(a)
    {
      var before := objective;
      objective := a => before(a) + term(a);
      AddCons(domain);
    }

    method SetObjective(cost: A -> real)
      modifies this
      ensures objective == cost && rows == old(rows)
    {
      objective := cost;
    }
  }
}
