/** Screen positions, the `Tuple[int, int]` coordinates the source passes to mouse clicks. */
module Screen {

  datatype Point = Point(x: int, y: int)
}
