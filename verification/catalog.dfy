/** The built-in catalogue the app starts from: five drink categories, thirty
    products, twelve toppings, two sizes and the sugar and ice choices. Prices
    are in Vietnamese dong. */
module Catalog {
  import opened Types

  const CATEGORIES: seq<Category> := [
    Category("milk-tea", "Trà Sữa"),
    Category("fruit-tea", "Trà Trái Cây"),
    Category("fresh-milk", "Sữa Tươi"),
    Category("cafe", "Cafe"),
    Category("latte", "Latte")
  ]

  const PRODUCTS: seq<Product> := [
    Product(1, "Trà Sữa Katuu", 30000, "https://picsum.photos/id/101/400/400", "milk-tea"),
    Product(2, "Trà Sữa Truyền Thống", 20000, "https://picsum.photos/id/102/400/400", "milk-tea"),
    Product(3, "Trà Sữa Okinawa", 20000, "https://picsum.photos/id/103/400/400", "milk-tea"),
    Product(4, "Trà Sữa Lai", 20000, "https://picsum.photos/id/104/400/400", "milk-tea"),
    Product(5, "Trà Sữa Olong", 23000, "https://picsum.photos/id/106/400/400", "milk-tea"),
    Product(6, "Trà Sữa Olong Lài", 23000, "https://picsum.photos/id/111/400/400", "milk-tea"),
    Product(7, "Trà Sữa Matcha", 23000, "https://picsum.photos/id/112/400/400", "milk-tea"),
    Product(8, "Trà Sữa Chocolate", 23000, "https://picsum.photos/id/113/400/400", "milk-tea"),
    Product(9, "Trà Sữa Chocomint", 23000, "https://picsum.photos/id/114/400/400", "milk-tea"),
    Product(10, "Trà Sữa Hạt Dẻ Phô Mai", 27000, "https://picsum.photos/id/115/400/400", "milk-tea"),
    Product(11, "Trà Sữa Kem Macchiato", 27000, "https://picsum.photos/id/116/400/400", "milk-tea"),
    Product(12, "Trà Sữa Kem Trứng Cháy", 27000, "https://picsum.photos/id/117/400/400", "milk-tea"),
    Product(13, "Trà Trái Cây Nhiệt Đới", 33000, "https://picsum.photos/id/201/400/400", "fruit-tea"),
    Product(14, "Trà Vải Lài", 30000, "https://picsum.photos/id/202/400/400", "fruit-tea"),
    Product(15, "Trà Đào", 30000, "https://picsum.photos/id/203/400/400", "fruit-tea"),
    Product(16, "Trà Ổi Hồng Ruby", 30000, "https://picsum.photos/id/204/400/400", "fruit-tea"),
    Product(17, "Trà Cam Bưởi Xí Muội", 30000, "https://picsum.photos/id/205/400/400", "fruit-tea"),
    Product(18, "Lục Trà Chanh Dây Macchiato", 30000, "https://picsum.photos/id/206/400/400", "fruit-tea"),
    Product(19, "Lục Trà Chanh Mật Ong", 25000, "https://picsum.photos/id/207/400/400", "fruit-tea"),
    Product(20, "Sữa Tươi Trân Châu Đường Đen", 28000, "https://picsum.photos/id/301/400/400", "fresh-milk"),
    Product(21, "Sữa Tươi Trà Xanh Trân Châu Đường Đen", 30000, "https://picsum.photos/id/302/400/400", "fresh-milk"),
    Product(22, "Sữa Tươi Choco Trân Châu Đường Đen", 30000, "https://picsum.photos/id/303/400/400", "fresh-milk"),
    Product(23, "Cafe Đen", 15000, "https://picsum.photos/id/401/400/400", "cafe"),
    Product(24, "Cafe Sữa", 18000, "https://picsum.photos/id/402/400/400", "cafe"),
    Product(25, "Bạc Xỉu", 20000, "https://picsum.photos/id/403/400/400", "cafe"),
    Product(26, "Cafe Kem Sữa", 25000, "https://picsum.photos/id/404/400/400", "cafe"),
    Product(27, "Cafe Sữa Tươi Sương Sáo", 25000, "https://picsum.photos/id/405/400/400", "cafe"),
    Product(28, "Matcha Latte", 30000, "https://picsum.photos/id/501/400/400", "latte"),
    Product(29, "Choco Latte", 30000, "https://picsum.photos/id/502/400/400", "latte"),
    Product(30, "Matcha Oreo Phô Mai", 35000, "https://picsum.photos/id/503/400/400", "latte")
  ]

  const TOPPINGS: seq<Topping> := [
    Topping(1, "Trân Châu Đen", 5000),
    Topping(2, "Trân Châu Trắng", 5000),
    Topping(3, "Rau Câu Phô Mai", 5000),
    Topping(4, "Pudding", 5000),
    Topping(5, "Sương Sáo", 5000),
    Topping(6, "Phô Mai Tươi", 5000),
    Topping(7, "Hạt Thủy Tinh", 5000),
    Topping(8, "Đào Miếng", 7000),
    Topping(9, "Trái Vải", 7000),
    Topping(10, "Kem Macchiato", 7000),
    Topping(11, "Kem Trứng Cháy", 7000),
    Topping(12, "Full Topping", 10000)
  ]

  const SIZES: seq<Size> := [
    Size(1, "Size M", 0),
    Size(2, "Size L", 5000)
  ]

  const SUGAR_LEVELS: seq<string> := ["100% Đường", "75% Đường", "50% Đường", "25% Đường", "Không Đường"]

  const ICE_LEVELS: seq<string> := ["Đá Bình Thường", "Ít Đá", "Không Đá"]

  predicate IsCategoryId(id: string)
  {
    exists i :: 0 <= i < |CATEGORIES| && CATEGORIES[i].id == id
  }

  /** Every product belongs to one of the five categories, product ids run
      1..30 in list order, and every price is positive. */
  lemma ProductsWellFormed()
    ensures |PRODUCTS| == 30
    ensures forall i :: 0 <= i < |PRODUCTS| ==> PRODUCTS[i].id == i + 1 && PRODUCTS[i].price > 0
    ensures forall i :: 0 <= i < |PRODUCTS| ==> IsCategoryId(PRODUCTS[i].category)
  {
    forall i | 0 <= i < |PRODUCTS|
      ensures IsCategoryId(PRODUCTS[i].category)
    {
      var c := PRODUCTS[i].category;
      if c == "milk-tea" { assert CATEGORIES[0].id == c; }
      else if c == "fruit-tea" { assert CATEGORIES[1].id == c; }
      else if c == "fresh-milk" { assert CATEGORIES[2].id == c; }
      else if c == "cafe" { assert CATEGORIES[3].id == c; }
      else { assert CATEGORIES[4].id == c; }
    }
  }

  /** Topping ids run 1..12; the first seven cost 5000, the next four 7000 and
      "Full Topping" 10000. */
  lemma ToppingsWellFormed()
    ensures |TOPPINGS| == 12
    ensures forall i :: 0 <= i < |TOPPINGS| ==> TOPPINGS[i].id == i + 1
    ensures forall i :: 0 <= i < 7 ==> TOPPINGS[i].price == 5000
    ensures forall i :: 7 <= i < 11 ==> TOPPINGS[i].price == 7000
    ensures TOPPINGS[11].name == "Full Topping" && TOPPINGS[11].price == 10000
  {
  }

  /** The default size is "Size M" at no extra cost; "Size L" adds 5000. The
      default sugar level is full sugar and the default ice level is normal ice. */
  lemma DefaultsAreFirstChoices()
    ensures SIZES[0] == Size(1, "Size M", 0) && SIZES[1] == Size(2, "Size L", 5000)
    ensures |SUGAR_LEVELS| == 5 && SUGAR_LEVELS[0] == "100% Đường"
    ensures |ICE_LEVELS| == 3 && ICE_LEVELS[0] == "Đá Bình Thường"
  {
  }
}
