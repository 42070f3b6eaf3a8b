/** Motion vectors, in eighths of a luma pixel as the encoder stores them. */
module Motion {
  import opened Arith

  datatype MotionVector = MotionVector(row: int, col: int) {
    /** The full-pel position, rounding down. */
    function FullRow(): int {
      row / 8
    }

    function FullCol(): int {
      col / 8
    }

    /** Both components are signed 16-bit integers, as every stored vector's are. */
    predicate Is16Bit() {
      -0x8000 <= row < 0x8000 && -0x8000 <= col < 0x8000
    }
  }

  /** The limits of a search, in whatever unit its positions have. */
  datatype Bounds = Bounds(rowMin: int, rowMax: int, colMin: int, colMax: int) {
    predicate Contains(row: int, col: int) {
      rowMin <= row <= rowMax && colMin <= col <= colMax
    }

    predicate ContainsStrict(row: int, col: int) {
      rowMin < row < rowMax && colMin < col < colMax
    }
  }

  /** A vector stored in two signed 16-bit components. */
  function Packed(row: int, col: int): MotionVector {
    MotionVector(Int16(row), Int16(col))
  }
}
