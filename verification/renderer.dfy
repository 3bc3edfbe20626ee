/** The part of the desktop front end that reads the user's list before it
    is sent to the worker. */
module Renderer {
  import opened Text
  import opened BrandInput

  /** `parseInput(input)`: the brands in the order their first header
      appears, each with the products listed under its last header. */
  method ParseInput(input: string) returns (order: seq<string>, brands: map<string, seq<string>>)
    ensures var g := Group(Classified(JavaScript, Split(input, '\n')));
      order == g.order && brands == g.products
    ensures NoDups(order) && forall b :: b in order <==> b in brands
  {
    var g := GroupLines(JavaScript, Split(input, '\n'));
    GroupValid(Classified(JavaScript, Split(input, '\n')));
    order, brands := g.order, g.products;
  }
}
