/** The least element of a set of identifiers, as an ordered query finds it. */
module Sets {
  method Least(s: set<nat>) returns (least: nat)
    requires s != {}
    ensures least in s && forall id :: id in s ==> least <= id
  {
    least :| least in s;
    var rest := s - {least};
    while rest != {}
      invariant least in s && rest <= s
      invariant forall id :: id in s && id !in rest ==> least <= id
      decreases rest
    {
      var id :| id in rest;
      if id < least {
        least := id;
      }
      rest := rest - {id};
    }
  }
}
