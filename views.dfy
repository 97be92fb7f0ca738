/** The parts of android.view and android.graphics the widgets use: a
    view's visibility, drawables and views by identity, and a mutable
    ARGB bitmap whose setPixel checks its bounds. */
module Views {
  import opened JavaLang

  /** View.VISIBLE, View.INVISIBLE and View.GONE. */
  datatype Visibility = Visible | Invisible | Gone

  /** A Drawable, by identity. */
  type Drawable = nat

  /** A View, by identity. */
  type ViewId = nat

  /** android.R.attr.state_pressed. */
  const STATE_PRESSED: int := 0x010100a7

  /** Color.TRANSPARENT. */
  const TRANSPARENT: int := 0

  /** b ? VISIBLE : GONE, the usual way a flag shows or removes a view. */
  function ShownOrGone(b: bool): Visibility
  {
    if b then Visible else Gone
  }

  /** android.graphics.Rect: the bounds a drawable is given. */
  datatype Rect = Rect(left: int32, top: int32, right: int32, bottom: int32)

  /** The pixel (x, y) lies inside r. */
  predicate Contains(r: Rect, x: int, y: int)
  {
    r.left <= x < r.right && r.top <= y < r.bottom
  }

  /** A mutable bitmap from Bitmap.createBitmap(width, height, ARGB_8888):
      every pixel starts transparent; pixels[x, y] is column x of row y. */
  class Bitmap {
    const width: nat
    const height: nat
    const pixels: array2<int>

    ghost predicate Valid()
      reads this
    {
      pixels.Length0 == width && pixels.Length1 == height
    }

    constructor (width: nat, height: nat)
      ensures Valid() && this.width == width && this.height == height && fresh(pixels)
      ensures forall x, y :: 0 <= x < width && 0 <= y < height ==> pixels[x, y] == TRANSPARENT
    {
      this.width := width;
      this.height := height;
      pixels := new int[width, height]((x, y) => TRANSPARENT);
    }

    /** The pixels as columns of rows; what a copy of the bitmap holds. */
    function Snapshot(): (s: seq<seq<int>>)
      requires Valid()
      reads this, pixels
      ensures |s| == width
      ensures forall x :: 0 <= x < width ==> |s[x]| == height
      ensures forall x, y :: 0 <= x < width && 0 <= y < height ==> s[x][y] == pixels[x, y]
    {
      seq(width, x requires 0 <= x < width reads pixels =>
        seq(height, y requires 0 <= y < height reads pixels => pixels[x, y]))
    }

    /** setPixel(x, y, color): IllegalArgumentException outside the bitmap,
        otherwise that one pixel changes. */
    method SetPixel(x: int, y: int, color: int) returns (r: Result<()>)
      requires Valid()
      modifies pixels
      ensures !(0 <= x < width && 0 <= y < height) ==> r == Throws(IllegalArgument) && unchanged(pixels)
      ensures 0 <= x < width && 0 <= y < height ==>
                && r == Ok(())
                && pixels[x, y] == color
                && forall i, j :: 0 <= i < width && 0 <= j < height && (i != x || j != y) ==>
                     pixels[i, j] == old(pixels[i, j])
    {
      if !(0 <= x < width && 0 <= y < height) {
        return Throws(IllegalArgument);
      }
      pixels[x, y] := color;
      r := Ok(());
    }
  }

  /** s without the view v: what ViewGroup.removeView leaves. */
  function Without<T(==,!new)>(s: seq<T>, v: T): (r: seq<T>)
    ensures forall w: T :: w in r <==> w in s && w != v
    ensures |r| <= |s|
  {
    if s == [] then []
    else if s[0] == v then Without(s[1..], v)
    else [s[0]] + Without(s[1..], v)
  }

  /** No view appears twice in a layout. */
  ghost predicate NoRepeats<T>(s: seq<T>)
  {
    forall i, j :: 0 <= i < j < |s| ==> s[i] != s[j]
  }

  /** Removing a view from a layout without repeats leaves a layout without
      repeats, one view shorter when v was in it. */
  lemma {:induction false} WithoutNoRepeats<T(!new)>(s: seq<T>, v: T)
    requires NoRepeats(s)
    ensures NoRepeats(Without(s, v))
    ensures |Without(s, v)| == if v in s then |s| - 1 else |s|
  {
    if s != [] {
      assert NoRepeats(s[1..]) by {
        forall i, j | 0 <= i < j < |s[1..]|
          ensures s[1..][i] != s[1..][j]
        {
          assert s[1..][i] == s[i + 1] && s[1..][j] == s[j + 1];
        }
      }
      WithoutNoRepeats(s[1..], v);
      assert s[0] !in s[1..] by {
        forall k | 0 <= k < |s[1..]|
          ensures s[1..][k] != s[0]
        {
          assert s[1..][k] == s[k + 1];
        }
      }
      if s[0] != v {
        var rest := Without(s[1..], v);
        assert s[0] !in rest;
        var r := [s[0]] + rest;
        forall i, j | 0 <= i < j < |r|
          ensures r[i] != r[j]
        {
          if i == 0 {
            assert r[j] == rest[j - 1];
          } else {
            assert r[i] == rest[i - 1] && r[j] == rest[j - 1];
          }
        }
        assert v in s <==> v in s[1..];
      } else {
        assert v !in s[1..];
      }
    }
  }
}
