/**
 * `World.loadLevel` (demo/zakk/src/world.js): takes a level's size, picks the background,
 * walls and entities layers among the first three layers, and fills a width × height grid
 * whose cell (x, y) holds the two layers' tile numbers at `x + y * width`, less one.
 */
module Worlds {
  import opened Wrappers
  import opened Strings
  import opened JsNumbers
  import opened Grids

  datatype Layer = Layer(name: string, kind: string, data: seq<int>)
  datatype LevelData = LevelData(width: int, height: int, layers: seq<Layer>)

  /** A map cell: background and wall tile numbers. */
  type Cell = (Number, Number)

  /** The layers chosen so far: background, walls, entities. */
  datatype Chosen = Chosen(background: Option<Layer>, walls: Option<Layer>, entities: Option<Layer>)

  const NoLayer := "TypeError: Cannot read properties of undefined (reading 'name')"
  const NoData := "TypeError: Cannot read properties of undefined (reading 'data')"
  const BadLength := "RangeError: Invalid array length"

  /** One layer considered: its lower-cased name and type decide which slot it takes, and
      it replaces whatever that slot held. */
  function Choose(c: Chosen, layer: Layer): Chosen {
    var name, kind := Lower(layer.name), Lower(layer.kind);
    if name == "background" && kind == "tilelayer" then c.(background := Some(layer))
    else if name == "walls" && kind == "tilelayer" then c.(walls := Some(layer))
    else if name == "entities" && kind == "objectgroup" then c.(entities := Some(layer))
    else c
  }

  /** The layers considered in order. */
  function ChooseAll(layers: seq<Layer>): Chosen
    decreases |layers|
  {
    if layers == [] then Chosen(None, None, None)
    else Choose(ChooseAll(layers[..|layers| - 1]), layers[|layers| - 1])
  }

  predicate IsBackground(layer: Layer) {
    Lower(layer.name) == "background" && Lower(layer.kind) == "tilelayer"
  }

  /** The background chosen is the last background layer, and there is one exactly when some
      layer is one. */
  lemma {:induction false} LastBackgroundWins(layers: seq<Layer>)
    ensures ChooseAll(layers).background.Some? <==> exists i :: 0 <= i < |layers| && IsBackground(layers[i])
    ensures ChooseAll(layers).background.Some? ==>
      exists i :: 0 <= i < |layers| && ChooseAll(layers).background.value == layers[i] && IsBackground(layers[i]) &&
        forall j :: i < j < |layers| ==> !IsBackground(layers[j])
  {
    BackgroundExists(layers);
    BackgroundLast(layers);
  }

  /** There is a background exactly when some layer is one. */
  lemma {:induction false} BackgroundExists(layers: seq<Layer>)
    ensures ChooseAll(layers).background.Some? <==> exists i :: 0 <= i < |layers| && IsBackground(layers[i])
    decreases |layers|
  {
    if layers != [] {
      var n := |layers|;
      var init, last := layers[..n - 1], layers[n - 1];
      BackgroundExists(init);
      ChooseBackground(ChooseAll(init), last);
      if IsBackground(last) {
        assert IsBackground(layers[n - 1]);
      } else {
        if exists i :: 0 <= i < n && IsBackground(layers[i]) {
          var i :| 0 <= i < n && IsBackground(layers[i]);
          assert i < n - 1 && init[i] == layers[i];
        }
        if ChooseAll(init).background.Some? {
          var i :| 0 <= i < |init| && IsBackground(init[i]);
          assert init[i] == layers[i];
        }
      }
    }
  }

  /** The background chosen is a background layer with none after it. */
  lemma {:induction false} BackgroundLast(layers: seq<Layer>)
    ensures ChooseAll(layers).background.Some? ==>
      exists i :: 0 <= i < |layers| && ChooseAll(layers).background.value == layers[i] && IsBackground(layers[i]) &&
        forall j :: i < j < |layers| ==> !IsBackground(layers[j])
    decreases |layers|
  {
    if layers != [] {
      var n := |layers|;
      var init, last := layers[..n - 1], layers[n - 1];
      BackgroundLast(init);
      ChooseBackground(ChooseAll(init), last);
      if !IsBackground(last) && ChooseAll(init).background.Some? {
        var i :| 0 <= i < |init| && ChooseAll(init).background.value == init[i] && IsBackground(init[i]) &&
          forall j :: i < j < |init| ==> !IsBackground(init[j]);
        assert init[i] == layers[i];
        forall j | i < j < n
          ensures !IsBackground(layers[j])
        {
          if j < n - 1 {
            assert !IsBackground(init[j]) && init[j] == layers[j];
          } else {
            assert layers[j] == last;
          }
        }
      }
    }
  }

  /** A layer takes the background slot exactly when it is a background layer. */
  lemma ChooseBackground(c: Chosen, layer: Layer)
    ensures Choose(c, layer).background == if IsBackground(layer) then Some(layer) else c.background
  {
  }

  /** The cell for array index i: each layer's tile number, less one; a missing number
      gives NaN. */
  function CellAt(background: Layer, walls: Layer, i: int): Cell {
    (Sub(At(background.data, i), Num(1)), Sub(At(walls.data, i), Num(1)))
  }

  /** The grid contents after the fill: every index of the w × h grid holds its cell. */
  function Filled(background: Layer, walls: Layer, n: int): map<int, Fill<Cell>> {
    map i | 0 <= i < n :: Value(CellAt(background, walls, i))
  }

  class World {
    var width: int
    var height: int
    var entities: seq<nat>
    /** `this.map` */
    var grid: Option<Grid2D<Cell>>

    constructor ()
      ensures width == 0 && height == 0 && entities == [] && grid.None?
    {
      width := 0;
      height := 0;
      entities := [];
      grid := None;
    }

    /** The three-layer selection loop. */
    static method ChooseLayers(layers: seq<Layer>) returns (r: Result<Chosen>)
      ensures |layers| < 3 ==> r == Err(NoLayer)
      ensures |layers| >= 3 ==> r == Ok(ChooseAll(layers[..3]))
    {
      var c := Chosen(None, None, None);
      for i := 0 to 3
        invariant i <= |layers| ==> c == ChooseAll(layers[..i])
        invariant i > |layers| ==> false
      {
        if i >= |layers| {
          return Err(NoLayer);
        }
        assert layers[..i + 1][..i] == layers[..i];
        c := Choose(c, layers[i]);
      }
      return Ok(c);
    }

    /** The row-by-row fill of a fresh grid. */
    static method Fill(g: Grid2D<Cell>, background: Layer, walls: Layer)
      requires g.data == map[] && g.width >= 0 && g.height >= 0
      modifies g
      ensures g.data == Filled(background, walls, g.height * g.width)
    {
      var w, h := g.width, g.height;
      for y := 0 to h
        invariant g.data == Filled(background, walls, y * w)
      {
        for x := 0 to w
          invariant g.data == Filled(background, walls, y * w + x)
        {
          g.Set(x, y, CellAt(background, walls, x + y * w));
        }
        assert y * w + w == (y + 1) * w;
      }
    }

    /** `loadLevel(levelData)`: the size is taken first; fewer than three layers is a
        TypeError before anything else; the grid needs a length that is not negative; and
        the fill, when it has any cell to fill, needs both tile layers. `entities` is never
        touched. */
    method LoadLevel(level: LevelData) returns (r: Result<()>)
      modifies this
      ensures width == level.width && height == level.height && entities == old(entities)
      ensures |level.layers| < 3 ==> r == Err(NoLayer) && grid == old(grid)
      ensures |level.layers| >= 3 && level.width * level.height < 0 ==> r == Err(BadLength) && grid == old(grid)
      ensures |level.layers| >= 3 && level.width * level.height >= 0 ==> (grid.Some? && fresh(grid.value) &&
        grid.value.width == level.width && grid.value.height == level.height && grid.value.defaultValue == Zero)
      ensures r.Ok? ==> |level.layers| >= 3 && grid.Some?
      ensures r.Ok? && level.width > 0 && level.height > 0 ==>
        var chosen := ChooseAll(level.layers[..3]);
        chosen.background.Some? && chosen.walls.Some? &&
        grid.value.data == Filled(chosen.background.value, chosen.walls.value, level.width * level.height)
      ensures r.Ok? && !(level.width > 0 && level.height > 0) ==> grid.value.data == map[]
      ensures |level.layers| >= 3 && level.width > 0 && level.height > 0 ==>
        var chosen := ChooseAll(level.layers[..3]);
        (r.Ok? <==> level.width * level.height >= 0 && chosen.background.Some? && chosen.walls.Some?)
    {
      width := level.width;
      height := level.height;
      var chosen := ChooseLayers(level.layers);
      if chosen.Err? {
        return Err(chosen.error);
      }
      if width * height < 0 {
        return Err(BadLength);
      }
      var g := new Grid2D<Cell>(width, height, None);
      grid := Some(g);
      if height > 0 && width > 0 {
        if chosen.value.background.None? || chosen.value.walls.None? {
          return Err(NoData);
        }
        Fill(g, chosen.value.background.value, chosen.value.walls.value);
      }
      return Ok(());
    }
  }

  /** Inside the map, cell (x, y) holds the tile numbers at `x + y * width`, less one. */
  lemma CellOfPosition(background: Layer, walls: Layer, w: int, h: int, x: int, y: int)
    requires 0 <= x < w && 0 <= y < h
    ensures Index(w, x, y) in Filled(background, walls, h * w)
    ensures Filled(background, walls, h * w)[Index(w, x, y)] == Value(CellAt(background, walls, x + y * w))
  {
    IndexInGrid(w, h, x, y);
    assert w * h == h * w;
  }
}
